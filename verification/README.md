# Expense tracker core, modelled in Dafny

The system is a household expense tracker. A user uploads a bank-export CSV
file from the web front end to S3. The upload triggers an AWS Lambda that
does the following:
- reads the category whitelist from the SSM parameter store and validates it;
- fetches and decodes the object;
- takes the uploader's identity from the object key;
- parses the rows and derives the reporting month from the first row's date;
- sums the spending of the four cost buckets (regular fixed, regular variable, irregular fixed, irregular variable);
- writes one item to DynamoDB.

The front end holds:
- the authentication hooks: sign-in, sign-up, account confirmation, sign-out, the session fetch and the token-expiry check;
- the two upload hooks;
- the category store, with subcategory visibility and subcategories learnt from imported CSV data;
- the CSV import dialog;
- the sidebar, the expense table and the dashboard heading;
- the form schemas and the sign-up screen.

The model has one Dafny module per source file of that core, plus three shared modules:
- `Base`: `Option`/`Result`, `Filter`, `FindIndex`, `Fold`;
- `Text`: trimming, `split`/`join`, digits, number printing;
- `Js`: JavaScript values, truthiness and `NaN`.

Every operation is modelled as a pure function on immutable data:
- Reducers are total `State × Action → State` functions, and a hook run is the sequence of actions it dispatches.
- Thrown values are `Result` errors.
- Amounts are integers (yen).
- Every external service is a function parameter: SSM, S3, DynamoDB, Cognito, Amplify storage, Shift-JIS decoding, the CSV parser, `Number.parseFloat`, `decodeURIComponent`, the outcome of reading each selected file, the clock, and the e-mail syntax check of the schema library.

The model follows the code as written, including where it departs from what its names, messages or comments suggest:
- The month pattern is not anchored and its digits are not range-checked.
- A zero amount is still categorised.
- A bucket name missing from the whitelist produces a `NaN` entry.
- Configuration loading sits outside the handler's `try` block, so its failures escape.
- The multi-file upload reads its files outside its `try` block, so a failed read escapes `upload` right after INIT.
- Sign-in enforces the full sign-up password rule.
- The password rule does not require a digit, although its message asks for one.
- `AuthError` destructures its definition before it checks whether one exists.
- Toggling a subcategory clears the selection according to the visibility read before the toggle.
- A category selected with only a main id shows that category's own amount as the row total.

## Model

| member | source | states |
|---|---|---|
| BackErrors.Decorate | back/src/features/aggregate/utils/funcDecorator.ts:41-57 | a normal result passes through unchanged; every failure becomes an `AppError` named after the decorated method, keeping an `Error`'s message and using the unknown-error message for any other thrown value |
| BackErrors.NestedDecorationKeepsInnerMessage | back/src/features/aggregate/utils/funcDecorator.ts:45-54 | when decorated methods call each other, the innermost `Error`'s message survives and the error names the outermost method |
| BackErrors.RedecorateRenames | back/src/features/aggregate/utils/funcDecorator.ts:49-54 | redecorating a decorated result only renames the method, except when the original thrown value was not an `Error` |
| SsmVarPolicy.CheckAllRule | back/src/features/aggregate/utils/validator/ssmVarPolicy.ts:59-66 | the result is true exactly when every rule accepts the value; on a failure the last rule evaluated is the first one that rejects, and every earlier rule accepted |
| SsmVarPolicy.AllRulesPassIffEvery | back/src/features/aggregate/utils/validator/ssmVarPolicy.ts:59-66 | the short-circuit loop agrees with "every rule holds" |
| SsmVarPolicy.CheckCategoryList | back/src/features/aggregate/utils/validator/ssmVarPolicy.ts:73-89 | the category-list policy holds exactly when every rule of its list accepts the value, and that is exactly when the comma-list rule accepts it: the not-empty and not-undefined rules add nothing |
| SsmVarPolicy.InCommaListAppend | back/src/features/aggregate/utils/validator/ssmVarPolicy.ts:42 | two members of the comma-list language joined by a comma are a member |
| SsmVarPolicy.CommaFreeInList | back/src/features/aggregate/utils/validator/ssmVarPolicy.ts:42 | every non-empty string without a comma is a member |
| SsmVarPolicy.CommaListIffNonEmptyPieces | back/src/features/aggregate/utils/validator/ssmVarPolicy.ts:42 | the pattern accepts a string exactly when splitting it on "," gives no empty piece |
| SsmVarPolicy.AcceptedListRoundTrips | back/src/features/aggregate/utils/validator/ssmVarPolicy.ts:87-89 | an accepted list splits into non-empty, comma-free names that join back to the value |
| SsmVarPolicy.BlankNamesAccepted | back/src/features/aggregate/utils/validator/ssmVarPolicy.ts:41-44 | " , " is accepted; "a,,b", "a,", "" and undefined are rejected |
| SsmVarStrategy.StrategyFor | back/src/features/aggregate/utils/validator/ssmVarStrategy.ts:43-45 | a strategy exists exactly for the names of the `SsmVar` enum |
| SsmVarStrategy.CheckSsmVar | back/src/features/aggregate/utils/validator/ssmVarStrategy.ts:34-37 | the `CATEGORY_LIST` strategy accepts exactly the comma lists, with no state carried between calls |
| CheckSsmVar.Put | back/src/features/aggregate/utils/validator/checkSsmVar.ts:39 | recording an invalid key adds it, keeps the other keys, keeps the size when it was already there, and appends a new key last |
| CheckSsmVar.Scan | back/src/features/aggregate/utils/validator/checkSsmVar.ts:31-41 | the loop stops only at a key without a strategy; the record keeps its old keys, gains only keys whose value fails, and on completion holds every failing key |
| CheckSsmVar.ScanFinishes | back/src/features/aggregate/utils/validator/checkSsmVar.ts:31-41 | the loop completes exactly when every key has a strategy, and then the record of invalid keys is empty exactly when it started empty and every value passed |
| CheckSsmVar.ValidateSucceedsIff | back/src/features/aggregate/utils/validator/checkSsmVar.ts:29-51 | a fresh validator succeeds exactly when every parameter has a strategy and passes it; a failure is an `AppError` of `validate` |
| CheckSsmVar.ScanStopsAtMissing | back/src/features/aggregate/utils/validator/checkSsmVar.ts:32-36 | the loop stops at the first key without a strategy |
| CheckSsmVar.MissingStrategyReported | back/src/features/aggregate/utils/validator/checkSsmVar.ts:34-36 | a key without a strategy is reported as "Strategy not found: key", even after invalid keys |
| CheckSsmVar.CategoryListValidation | back/src/features/aggregate/utils/validator/checkSsmVar.ts:44-50 | the category list passes exactly when it is a comma list; otherwise the error is "Invalid environment variables: CATEGORY_LIST" |
| CheckSsmVar.ScanKeepsRecord | back/src/features/aggregate/utils/validator/checkSsmVar.ts:12 | the record of invalid keys never shrinks across a run |
| CheckSsmVar.FailureIsSticky | back/src/features/aggregate/utils/validator/checkSsmVar.ts:44-50 | an instance that failed validation fails every later call, because its record is never cleared |
| CheckSsmVar.Validate | back/src/features/aggregate/utils/validator/checkSsmVar.ts:29-51 | the required entries are kept and the record only grows; success needs an empty record and every value passing; a failure is an `AppError` of `validate`, and a completed scan that fails leaves a non-empty record |
| CsvToJson.Normalize | back/src/features/aggregate/logic/csvToJson.ts:48-55 | both flag columns become booleans by truthiness, missing ones included, and every other column is kept |
| CsvToJson.Convert | back/src/features/aggregate/logic/csvToJson.ts:27-58 | any parse error fails with "Errors while parsing:" and the serialised result; otherwise every row is normalised, in order |
| CsvToJson.NormalizeIdempotent | back/src/features/aggregate/logic/csvToJson.ts:48-55 | normalising twice is normalising once |
| CsvToJson.FlagDecoding | back/src/features/aggregate/logic/csvToJson.ts:51-53 | a cell 1 becomes true; 0, null and a missing column become false |
| HandleExpenseData.FirstDateAt | back/src/features/aggregate/logic/handleExpenseData.ts:55-56 | finds the leftmost position where the date pattern matches, or none |
| HandleExpenseData.MonthAt | back/src/features/aggregate/logic/handleExpenseData.ts:63 | the month is seven characters: four digits, '-', two digits |
| HandleExpenseData.ExtractExpenseMonth | back/src/features/aggregate/logic/handleExpenseData.ts:48-66 | an empty array is the empty-data error; a date that is not a string is a `TypeError`, reading `match` of `undefined` or `null`, or `match` not being a function; a result is the year and month of the first match in the first row |
| HandleExpenseData.MonthFoundIffDateOccurs | back/src/features/aggregate/logic/handleExpenseData.ts:55-60 | a string date gives a month exactly when the pattern occurs in it; otherwise the error is the invalid-date-format message |
| HandleExpenseData.MonthDependsOnFirstRowOnly | back/src/features/aggregate/logic/handleExpenseData.ts:56 | only the first row is consulted |
| HandleExpenseData.MonthOfPlainDate | back/src/features/aggregate/logic/handleExpenseData.ts:55-63 | "2024/06/15" gives "2024-06" |
| HandleExpenseData.MonthUnanchoredUnchecked | back/src/features/aggregate/logic/handleExpenseData.ts:55 | the pattern is neither anchored nor range-checked: "on 2024/13/45 at noon" gives "2024-13" |
| HandleExpenseData.MonthRejects | back/src/features/aggregate/logic/handleExpenseData.ts:55-60 | "2024-06-15" is the invalid-date-format error; a numeric date is the not-a-function `TypeError`, and a missing date the `TypeError` of reading `match` of `undefined` |
| HandleExpenseData.Extract | back/src/features/aggregate/logic/handleExpenseData.ts:27-40 | succeeds exactly when conversion and month extraction succeed, returning the converted rows unchanged and the month; failures are named `extract` |
| HandleExpenseData.ParseFailureRenamed | back/src/features/aggregate/logic/handleExpenseData.ts:33-34 | a parse failure surfaces with the parser's message under `extract` |
| CalcExpense.BucketOfDigit | back/src/features/aggregate/logic/calcExpense.ts:70-77 | exactly the digits 1-4 have a bucket, and each bucket is one of the four names |
| CalcExpense.GetCategory | back/src/features/aggregate/logic/calcExpense.ts:65-78 | succeeds exactly for a string starting with 1-4, giving a bucket name; another string fails with "invalid category format: " and the value; a non-string is a `TypeError`, reading `match` of `undefined` or `null`, or `match` not being a function |
| CalcExpense.BucketByLeadingDigit | back/src/features/aggregate/logic/calcExpense.ts:66 | the bucket depends on the first character alone |
| CalcExpense.InitializeZero | back/src/features/aggregate/logic/calcExpense.ts:55-57 | the keys are exactly the listed categories, each at 0 |
| CalcExpense.AbsAll | back/src/features/aggregate/logic/calcExpense.ts:43-45 | the same keys, each replaced by its absolute value |
| CalcExpense.Spent | back/src/features/aggregate/logic/calcExpense.ts:30-40 | the amount a row takes from a bucket is never negative |
| CalcExpense.TotalSpent | back/src/features/aggregate/logic/calcExpense.ts:30-40 | a bucket's total spending is never negative |
| CalcExpense.FirstBadRow | back/src/features/aggregate/logic/calcExpense.ts:30-39 | finds the first row whose category lookup is reached and fails, or none |
| CalcExpense.AccumulateFailsAtFirstBadRow | back/src/features/aggregate/logic/calcExpense.ts:30-40 | the loop fails exactly when there is a bad row, with that first row's error |
| CalcExpense.Accumulate | back/src/features/aggregate/logic/calcExpense.ts:30-40 | a failure comes from a bad row and carries that row's lookup error; a success keeps every existing key and adds only bucket names |
| CalcExpense.AccumulateHitKeys | back/src/features/aggregate/logic/calcExpense.ts:30-40 | the loop's keys are the starting keys plus exactly the buckets the processed rows hit, and a key that starts missing or `NaN` ends `NaN` |
| CalcExpense.AccumulateTotals | back/src/features/aggregate/logic/calcExpense.ts:30-40 | a key that starts finite ends at its start value minus the bucket's spending |
| CalcExpense.SumsAreBucketTotals | back/src/features/aggregate/logic/calcExpense.ts:26-48 | with all four buckets listed and no bad row, the result has exactly the listed keys, each holding its bucket's total spending |
| CalcExpense.BadRowAborts | back/src/features/aggregate/logic/calcExpense.ts:65-69 | a bad row aborts the whole computation with its message under `sumByCategory` |
| CalcExpense.SuccessIffNoBadRow | back/src/features/aggregate/logic/calcExpense.ts:25-48 | the computation succeeds exactly when no row is bad |
| CalcExpense.ZeroAmountIsCategorised | back/src/features/aggregate/logic/calcExpense.ts:34 | a zero amount reaches the category lookup, while a positive one is skipped |
| CalcExpense.MissingBucketIsNaN | back/src/features/aggregate/logic/calcExpense.ts:38 | spending in a bucket missing from the list appears under that key as NaN |
| CalcExpense.SumByCategory | back/src/features/aggregate/logic/calcExpense.ts:25-48 | a result has every whitelisted key and otherwise only bucket names, each value `NaN` or non-negative; a failure is an `AppError` of `sumByCategory` |
| CalcExpense.SumKeysAreWhitelistAndHits | back/src/features/aggregate/logic/calcExpense.ts:25-48 | without a bad row the keys are the whitelist plus the buckets the rows hit; a hit bucket outside the whitelist is `NaN`, and every whitelisted key holds its total spending |
| HandleS3Event.DecodedKey | back/src/features/aggregate/logic/handleS3Event.ts:39-42 | succeeds exactly when there is a first record whose key decodes, giving the decoded key; with no record the read of `s3` on `undefined` raises a `TypeError`, and a malformed escape raises `URI malformed` |
| HandleS3Event.GetCSVContents | back/src/features/aggregate/logic/handleS3Event.ts:37-57 | fetches the decoded key from the first record's bucket, failing only when the call fails or the body is absent; failures are named `getCSVContents` |
| HandleS3Event.FirstIdentityStart | back/src/features/aggregate/logic/handleS3Event.ts:67-68 | finds the leftmost position right after "private/" at a character other than '/' |
| HandleS3Event.RunEnd | back/src/features/aggregate/logic/handleS3Event.ts:67 | the greedy run of non-'/' characters ends at '/' or at the end |
| HandleS3Event.MatchIdentity | back/src/features/aggregate/logic/handleS3Event.ts:67-68 | a match is a non-empty, '/'-free run right after "private/"; there is none exactly when no position qualifies |
| HandleS3Event.GetIdentityId | back/src/features/aggregate/logic/handleS3Event.ts:65-76 | the identity is a non-empty, '/'-free segment; failures are named `getIdentityId` |
| HandleS3Event.UploaderKeyYieldsId | back/src/features/aggregate/logic/handleS3Event.ts:66-75 | a key of the form "private/<id>/<file>" yields `<id>` |
| HandleS3Event.MarkerInsideSegment | back/src/features/aggregate/logic/handleS3Event.ts:67 | "private/" need not start a path segment: "xprivate/abc" yields "abc" |
| HandleS3Event.FirstRecordOnly | back/src/features/aggregate/logic/handleS3Event.ts:39-66 | both operations read only the first record |
| HandleDynamo.BuildItem | back/src/features/aggregate/logic/handleDynamo.ts:36-41 | the item has id, userId, expenseDate and every sum key; the sums come last, so a sum named like a fixed attribute overrides it |
| HandleDynamo.Write | back/src/features/aggregate/logic/handleDynamo.ts:31-44 | succeeds exactly when storing the built item succeeds; failures are named `write` |
| HandleDynamo.WriteIgnoresIdentity | back/src/features/aggregate/logic/handleDynamo.ts:31 | the identity passed by the handler does not affect what is stored |
| HandleDynamo.BucketItemsAreUser1 | back/src/features/aggregate/logic/handleDynamo.ts:36-41 | for bucket sums, every item is stored under user "user1" with the month and the generated id |
| Lambda.GetParameters | back/src/features/aggregate/logic/handleSsm.ts:22-34 | succeeds exactly when the parameter store call does, giving the single `CATEGORY_LIST` entry; failures are named `getParameters` |
| Lambda.Init | back/src/features/aggregate/lambda.ts:24-32 | configuration succeeds exactly when the store call does and the category list passes the comma-list rule, and then yields the single `CATEGORY_LIST` entry |
| Lambda.TryBlock | back/src/features/aggregate/lambda.ts:41-64 | a bad category list fails before anything is fetched; otherwise the fetch request is the first record's decoded key; a write needs a fetch, no write means failure, and after a write the outcome succeeds exactly when the store accepted the item |
| Lambda.HandleEvent | back/src/features/aggregate/lambda.ts:34-75 | the invocation log entry comes first; the handler lets an error escape exactly when configuration failed, and otherwise the completion entry comes last |
| Lambda.EffectsWrites | back/src/features/aggregate/lambda.ts:41-74 | the effects of the try block and its logging hold one write exactly when the block wrote, and it is that item |
| Lambda.InitFailureEscapes | back/src/features/aggregate/lambda.ts:34-37 | a configuration failure escapes the handler right after the invocation log entry: nothing is fetched or written, and neither a failure nor the completion is logged |
| Lambda.InitOutcomes | back/src/features/aggregate/lambda.ts:24-32 | configuration fails on the store call or on a rejected category list; otherwise the list is split on "," |
| Lambda.TryBlockNeverEscapes | back/src/features/aggregate/lambda.ts:41-74 | after configuration nothing escapes; a failure is logged once under the application-error heading, and completion is logged last |
| Lambda.TryBlockWrites | back/src/features/aggregate/lambda.ts:41-64 | the try block writes exactly when every stage succeeds, and then writes the expected item |
| Lambda.AtMostOneWrite | back/src/features/aggregate/lambda.ts:34-75 | at most one write per invocation; with valid configuration, one exactly when every stage succeeds, holding the sums of the rows the month came from |
| Lambda.FetchPrecedesIdentity | back/src/features/aggregate/lambda.ts:46-52 | after the invocation log entry the object is fetched before the identity is read, so a key without an identity is fetched and nothing is written |
| AppErrors.NameIdentifiesClass | front/src/utils/error/error.ts:16-36 | two errors have the same `name` exactly when the same class built them |
| AppErrors.FixedErrors | front/src/utils/error/error.ts:16-36 | `NoError` is empty with level "none" and name "NoError"; `UnknownError` is not a `NoError`, has level "error" and name "UnknownError" |
| AppErrors.FromDefinition | front/src/utils/error/error.ts:8-13 | a table-driven error belongs to the class that constructed it |
| AppErrors.DefinitionRoundTrip | front/src/utils/error/error.ts:8-13 | an error built from a definition carries exactly that definition's title, message, code and level |
| AppErrors.ReKey | front/src/features/auth/error/const.ts:204-206 | re-keying keeps every entry, in order, under its definition's code |
| AppErrors.Definitions | front/src/features/auth/error/const.ts:204-206 | every key of the lookup object is its definition's code, and every entry's code is a key |
| AppErrors.ReKeyIdentity | front/src/features/auth/error/const.ts:204-206 | on a table already keyed by code, re-keying gives the table itself |
| AppErrors.SpreadIsUnion | front/src/features/auth/error/const.ts:181-184 | spreading two tables into one object is their map union, the later table winning |
| AppErrors.FatalExactlyInDefinitions | front/src/features/auth/error/const.ts:204-206 | which codes are fatal carries over unchanged from the table to the lookup object |
| AppErrors.Classify | front/src/features/auth/hooks/useSignIn.ts:89-95 | an `Error` whose code is one of the enum's values is constructed from that code; anything else becomes `UnknownError` |
| AppErrors.LookupError | front/src/features/home/error/error.ts:6-16 | construction succeeds exactly for a defined code and copies its definition; an undefined code throws `UnknownError` |
| AppErrors.GeneralTableCovers | front/src/utils/error/const.ts:3-18 | every `GeneralException` member has a definition, so the session error can always be constructed with its own code |
| AppErrors.GeneralError | front/src/utils/error/const.ts:7-18 | construction succeeds exactly for a code defined in `GENERAL_ERROR`, giving a `GeneralError` with that code and its definition's fields; any other code throws `UnknownError` |
| AuthErrors.SignInTableFacts | front/src/features/auth/error/const.ts:46-139 | the sign-in table is keyed by code, marks exactly the fatal codes, and has no `UsernameExistsException` entry |
| AuthErrors.SignUpTableFacts | front/src/features/auth/error/const.ts:141-179 | the sign-up table is keyed by code and marks exactly the fatal codes |
| AuthErrors.AuthLookupIsMerge | front/src/features/auth/error/const.ts:181-206 | the lookup object is the union of the two tables with the sign-up entries winning, and each key is its definition's code |
| AuthErrors.EveryAuthCodeDefined | front/src/features/auth/error/const.ts:4-184 | every member of both exception enums has a definition; `UsernameExistsException` is defined only through the sign-up table |
| AuthErrors.OnlyInternalAndNetworkFatal | front/src/features/auth/error/const.ts:55-178 | a definition is fatal exactly for the internal error and the two network errors |
| AuthErrors.AuthErrorAsWritten | front/src/features/auth/error/error.ts:8-21 | the constructor as written succeeds exactly for a defined code; for any other code the destructuring throws a `TypeError` |
| AuthErrors.AuthErrorGuardUnreachable | front/src/features/auth/error/error.ts:9-15 | an undefined code reaches the destructuring error, never the `UnknownError` guard |
| AuthErrors.AuthError | front/src/features/auth/error/error.ts:8-21 | with the guard first: a defined code gives an `AuthError` with that code and its definition's fields; any other code throws `UnknownError` |
| AuthErrors.AuthErrorCorrectedAgrees | front/src/features/auth/error/error.ts:12-15 | the corrected constructor agrees with the written one on every defined code, and throws `UnknownError` where that one throws a `TypeError` |
| AuthErrors.AuthClassification | front/src/features/auth/hooks/useSignIn.ts:89-95 | classification never throws; a code of the relevant enum gives an `AuthError` with that code, anything else `UnknownError` |
| AuthErrors.ClassifySignIn | front/src/features/auth/hooks/useSignIn.ts:89-95 | never throws; the error is an `AuthError` exactly when the caught value is an `Error` with a `SignInException` code, and then carries that code; otherwise `UnknownError` |
| AuthErrors.ClassifySignUp | front/src/features/auth/hooks/useSignUp.ts:67-74 | never throws; the error is an `AuthError` exactly when the caught value is an `Error` with a `SignUpException` code, and then carries that code; otherwise `UnknownError` |
| AuthErrors.ConfirmationCodeErrorsUnknown | front/src/features/auth/hooks/useConfirmAccount.ts:80-86 | code-mismatch and expired-code errors become `UnknownError` in account confirmation, although sign-in classifies them as `AuthError` |
| StorageErrors.StorageTableFacts | front/src/features/home/error/const.ts:4-37 | the upload table is keyed by code, every level is "error", and every `FileUploadException` member is defined with its own code |
| StorageErrors.StorageError | front/src/features/home/error/error.ts:6-19 | a defined code gives a `StorageError` carrying that code and its definition's fields; an undefined code throws `UnknownError` before any field is read |
| StorageErrors.UploadClassification | front/src/features/home/hooks/useCSVFileUpload.ts:134-142 | classification never throws; an `Error` with a `FileUploadException` code gives the `StorageError` of that code, anything else `UnknownError` |
| StorageErrors.ClassifyUpload | front/src/features/home/hooks/useCSVFileUpload.ts:134-142 | an `Error` with a `FileUploadException` code gives a `StorageError` with that code, and throws only for a code without a definition; anything else gives `UnknownError` |
| AuthHooks.Reduce | front/src/features/auth/hooks/useSignIn.ts:35-61 | START gives loading with `NoError`, SUCCESS gives successful with `NoError`, FAILURE gives neither with its payload as the error; other actions change nothing; no action leaves the hook both loading and successful |
| AuthHooks.ReachableConsistent | front/src/features/auth/hooks/useSignIn.ts:35-61 | any sequence of actions keeps the hook consistent: never both loading and successful, and success or loading only with `NoError` |
| AuthHooks.InitialConsistent | front/src/features/auth/hooks/useSignIn.ts:28-61 | every state reachable from the initial one is consistent |
| AuthHooks.Attempt | front/src/features/auth/hooks/useSignIn.ts:77-102 | a run starts with START; a resolved call adds SUCCESS; a rejected call adds the classified FAILURE, and only a throwing classifier leaves the run unsettled |
| AuthHooks.AttemptSettles | front/src/features/auth/hooks/useSignIn.ts:77-102 | with the auth classification, a run dispatches START and exactly one of SUCCESS or FAILURE, ending not loading, successful exactly when the call resolved |
| AuthHooks.SignInSettles | front/src/features/auth/hooks/useSignIn.ts:77-102 | `signIn` passes the credentials to Cognito and settles, classifying against `SignInException` |
| AuthHooks.SignUpSettles | front/src/features/auth/hooks/useSignUp.ts:60-78 | `signUp` passes the credentials to Cognito and settles, classifying against `SignUpException` |
| AuthHooks.ConfirmAccountSettles | front/src/features/auth/hooks/useConfirmAccount.ts:68-90 | `confirmAccount` passes the email and code to Cognito and settles, classifying against `SignUpException` |
| AuthHooks.SignOutSettles | front/src/features/auth/hooks/useSignOut.ts:60-76 | `signOut` asks for a global sign-out and settles, classifying against `SignInException` |
| AuthHooks.SignIn | front/src/features/auth/hooks/useSignIn.ts:77-102 | `signIn` dispatches START then one more action: SUCCESS exactly when Cognito accepted the credentials, otherwise a FAILURE that is an `AuthError` exactly for a `SignInException` code |
| AuthHooks.SignUp | front/src/features/auth/hooks/useSignUp.ts:60-78 | `signUp` dispatches START then one more action: SUCCESS exactly when Cognito accepted the credentials, otherwise a FAILURE that is an `AuthError` exactly for a `SignUpException` code |
| AuthHooks.ConfirmAccount | front/src/features/auth/hooks/useConfirmAccount.ts:68-90 | `confirmAccount` dispatches START then one more action: SUCCESS exactly when Cognito accepted the email and code, otherwise a FAILURE that is an `AuthError` exactly for a `SignUpException` code |
| AuthHooks.SignOut | front/src/features/auth/hooks/useSignOut.ts:60-76 | `signOut` dispatches START then one more action: SUCCESS exactly when the global sign-out succeeded, otherwise a FAILURE that is an `AuthError` exactly for a `SignInException` code |
| FetchAuthSession.Reduce | front/src/hooks/useFetchAuthSession.ts:39-62 | START clears the session and the error; SUCCESS holds the session with `NoError`; FAILURE clears the session and stores its error; other actions change nothing |
| FetchAuthSession.ReachableCoherent | front/src/hooks/useFetchAuthSession.ts:33-62 | in every reachable state a held session comes with `NoError`, and an error comes with no session |
| FetchAuthSession.FetchSession | front/src/hooks/useFetchAuthSession.ts:67-87 | a settled run is START then one more action; a fetched session gives START then SUCCESS with it |
| FetchAuthSession.FetchSettles | front/src/hooks/useFetchAuthSession.ts:67-87 | the fetch always settles: a session ends held with `NoError`, a rejection ends with no session and the classified error |
| FetchAuthSession.ClassifySession | front/src/hooks/useFetchAuthSession.ts:73-80 | an `Error` with a `GeneralException` code gives a `GeneralError` with that code, and throws only for a code without a definition; anything else gives `UnknownError` |
| AuthToken.NowSeconds | front/src/hooks/useAuthToken.ts:30 | the current second is the millisecond clock rounded down: `t * 1000 <= now < t * 1000 + 1000` |
| AuthToken.CheckTokenExpiration | front/src/hooks/useAuthToken.ts:21-51 | every check ends with loading false; the token is valid exactly when the session was fetched and has not expired; an error is set exactly when the fetch failed, carrying its message or the generic one |
| AuthToken.ExpiryInstant | front/src/hooks/useAuthToken.ts:30-32 | a token with a non-zero `exp` expires from the millisecond `(exp + 1) * 1000` on |
| AuthToken.ExpiryIsPermanent | front/src/hooks/useAuthToken.ts:29-36 | a session invalid by expiry stays invalid at every later time |
| AuthToken.MissingExpIsValid | front/src/hooks/useAuthToken.ts:29-35 | a session without `exp`, or with `exp` 0, is valid at any time |
| S3FileUpload.Reduce | front/src/features/menu/hooks/useS3FileUpload.ts:34-45 | each action changes only its own field: loading, or the message, which clearing empties; other actions change nothing |
| S3FileUpload.Upload | front/src/features/menu/hooks/useS3FileUpload.ts:61-96 | loading is set first and cleared last; a store request is made exactly when the session has an identity and a user id and the file was read; the error is cleared exactly when that request succeeded |
| S3FileUpload.Attempt | front/src/features/menu/hooks/useS3FileUpload.ts:64-93 | a store request is made exactly when the session has an identity and a user id and the file was read, to "private/<identity>/<file>" with the read text and the user id; the error is cleared exactly when that request succeeded; otherwise the message is the missing-identity text, or the caught one for a failed fetch, a failed read (checked after the identity) or a failed store |
| S3FileUpload.UploadSettles | front/src/features/menu/hooks/useS3FileUpload.ts:61-96 | every upload ends not loading; a successful store request leaves the message empty; a session missing its identity or user id, or a non-`Error` throw, leaves the fixed message for that case; a failed read after the identity check leaves the read's message |
| S3FileUpload.UploadKeyNamesUploader | front/src/features/menu/hooks/useS3FileUpload.ts:76 | the key an upload writes yields, at the Lambda, the uploader's identity |
| CsvFileUpload.Upsert | front/src/features/home/hooks/useCSVFileUpload.ts:22-34 | with an entry of that name the length is kept and the first such entry is replaced in place, all others unchanged; without one the entry is appended |
| CsvFileUpload.UpsertKeepsDistinct | front/src/features/home/hooks/useCSVFileUpload.ts:22-34 | an upsert keeps file names pairwise distinct and the upserted entry is present |
| CsvFileUpload.UpsertIdempotent | front/src/features/home/hooks/useCSVFileUpload.ts:22-34 | upserting the same entry twice is upserting it once |
| CsvFileUpload.HandleFailure | front/src/features/home/hooks/useCSVFileUpload.ts:74-96 | a batch failure replaces the list with one failed entry per name carrying the error; a single failure is upserted as a not-loading, unsuccessful entry carrying its error |
| CsvFileUpload.Reduce | front/src/features/home/hooks/useCSVFileUpload.ts:43-71 | INIT empties the list; START upserts a loading entry and SUCCESS a successful one, both with `NoError`; FAILURE applies the failure handler; other actions change nothing |
| CsvFileUpload.ReachableDistinct | front/src/features/home/hooks/useCSVFileUpload.ts:43-71 | under any actions whose batches list no name twice, file names stay pairwise distinct |
| CsvFileUpload.FileStepResult | front/src/features/home/hooks/useCSVFileUpload.ts:122-148 | one iteration for a file not yet listed never throws and appends exactly that file's settled entry |
| CsvFileUpload.FileStep | front/src/features/home/hooks/useCSVFileUpload.ts:122-148 | one iteration never throws and dispatches START for the file, then SUCCESS exactly when the store accepted it, otherwise the classified FAILURE |
| CsvFileUpload.Loop | front/src/features/home/hooks/useCSVFileUpload.ts:122-149 | the loop never throws and dispatches, for each file in order, START then exactly one of SUCCESS or FAILURE for that name |
| CsvFileUpload.Upload | front/src/features/home/hooks/useCSVFileUpload.ts:113-152 | `upload` starts with INIT and dispatches nothing more unless the captured error is `NoError`; then a rejected file read escapes right after INIT; otherwise nothing escapes and the loop dispatches two actions per file |
| CsvFileUpload.LoopResult | front/src/features/home/hooks/useCSVFileUpload.ts:122-149 | from a list not naming the files, the loop appends one settled entry per file in order and keeps the list in front |
| CsvFileUpload.UploadFinalState | front/src/features/home/hooks/useCSVFileUpload.ts:113-152 | after an upload whose files were all read and have distinct names, the list holds exactly one entry per file, in order, none loading, successful exactly when the store accepted it |
| CsvFileUpload.ReadAll | front/src/features/home/hooks/useCSVFileUpload.ts:166-183 | reading succeeds exactly when every file reads, giving each file's name and text in order; otherwise it rejects with the first failed read |
| CsvFileUpload.ReadFailureLeavesNoEntries | front/src/features/home/hooks/useCSVFileUpload.ts:115-120 | when the read rejects, its error escapes `upload` and the list INIT emptied stays empty: no file gets a START |
| ExpenseContext.FindCategory | front/src/features/home/components/dashboard/expense-context.tsx:375 | a found category is the first in the list with that id; none is found exactly when no category has the id |
| ExpenseContext.FindSub | front/src/features/home/components/dashboard/expense-context.tsx:314-316 | a found sub is the first in the list with that id; none is found exactly when no sub has the id |
| ExpenseContext.ToggleVisibility | front/src/features/home/components/dashboard/expense-context.tsx:295-309 | other categories are unchanged; in a category with the id, exactly the subs with the sub id have their visibility flipped and all else is kept |
| ExpenseContext.ToggleUnknownIsIdentity | front/src/features/home/components/dashboard/expense-context.tsx:295-309 | ids that name no sub of a matching category change nothing |
| ExpenseContext.ToggleTwiceRestores | front/src/features/home/components/dashboard/expense-context.tsx:300-304 | toggling the same pair twice gives back the original list |
| ExpenseContext.LookupAfterToggle | front/src/features/home/components/dashboard/expense-context.tsx:295-316 | after a toggle the looked-up sub is the old one with its visibility flipped |
| ExpenseContext.ClearSelectionAsWritten | front/src/features/home/components/dashboard/expense-context.tsx:311-320 | the selection changes only by being cleared, and only when the toggled sub was selected |
| ExpenseContext.ClearSelectionAsWrittenInverted | front/src/features/home/components/dashboard/expense-context.tsx:311-320 | as written, hiding the selected sub keeps it selected and showing it deselects it |
| ExpenseContext.HiddenSubStaysSelected | front/src/features/home/components/dashboard/expense-context.tsx:311-320 | hiding the selected "dining" sub of "food" leaves it selected |
| ExpenseContext.ClearSelection | front/src/features/home/components/dashboard/expense-context.tsx:311-320 | corrected rule: the selection changes only by being cleared, and only when the toggled sub was selected |
| ExpenseContext.ClearSelectionKeepsOnlyVisible | front/src/features/home/components/dashboard/expense-context.tsx:311-320 | with the correction, a toggled selected sub stays selected exactly when it is visible afterwards |
| ExpenseContext.Toggle | front/src/features/home/components/dashboard/expense-context.tsx:291-321 | as written: the lists are toggled and the main selection kept; the selection changes only by clearing the toggled sub, and a selected sub the toggle touches is cleared exactly when it is visible afterwards |
| ExpenseContext.ToggleCorrected | front/src/features/home/components/dashboard/expense-context.tsx:311-320 | corrected: the same lists, and a selected sub the toggle touches is cleared exactly when it is hidden afterwards, so a selected sub is never left hidden |
| ExpenseContext.ToggleLeavesHiddenSubSelected | front/src/features/home/components/dashboard/expense-context.tsx:311-320 | toggling the selected, visible "dining" hides it and keeps it selected as written, while the corrected toggle clears it |
| ExpenseContext.Accepted | front/src/features/home/components/dashboard/expense-context.tsx:347-353 | a name passes the filter exactly when it is in the input and is non-blank and not an existing sub name once trimmed |
| ExpenseContext.Added | front/src/features/home/components/dashboard/expense-context.tsx:354-363 | one new sub per accepted name, in order, numbered from 0 |
| ExpenseContext.FromData | front/src/features/home/components/dashboard/expense-context.tsx:330-335 | the list under the mapped key when present, else under the name, else under the id, else []: the first present key decides, even with an empty list |
| ExpenseContext.NewSub | front/src/features/home/components/dashboard/expense-context.tsx:354-363 | a new sub is visible, from data, named by the trimmed input, has palette colour number (existing count + index) modulo the palette size, and an id starting with the category id and "-" |
| ExpenseContext.AddToCategory | front/src/features/home/components/dashboard/expense-context.tsx:328-368 | only the subcategory list changes; no or an empty entry changes nothing; the existing subs stay in front in their order |
| ExpenseContext.AddedSubs | front/src/features/home/components/dashboard/expense-context.tsx:347-368 | the j-th appended sub is visible, from data, named by the trimmed form of an input name, non-blank and new to the category, and has palette colour number (existing count + j) modulo the palette size |
| ExpenseContext.AddedSubAt | front/src/features/home/components/dashboard/expense-context.tsx:347-363 | the same facts for one appended sub, with the input name it comes from |
| ExpenseContext.AddCoversNames | front/src/features/home/components/dashboard/expense-context.tsx:341-368 | afterwards every non-blank input name, trimmed, names some sub |
| ExpenseContext.AddKeepsOrNamesData | front/src/features/home/components/dashboard/expense-context.tsx:341-368 | afterwards every sub name is one the category had or a trimmed input name |
| ExpenseContext.AddSubCategoriesFromData | front/src/features/home/components/dashboard/expense-context.tsx:324-371 | every category keeps its position, id and name |
| ExpenseContext.AddToCategoryTwice | front/src/features/home/components/dashboard/expense-context.tsx:341-368 | adding the same data to a category again, at any time, adds nothing |
| ExpenseContext.AddTwiceAddsNothing | front/src/features/home/components/dashboard/expense-context.tsx:324-371 | adding the same data to the store again, at any time, adds nothing |
| ExpenseContext.RepeatsWithinOneListAreKept | front/src/features/home/components/dashboard/expense-context.tsx:347-363 | a name repeated within one input list is added twice |
| ExpenseContext.EmptyListShadowsLaterKeys | front/src/features/home/components/dashboard/expense-context.tsx:330-335 | an empty list under the mapped key hides a list stored under the category name |
| ExpenseContext.GetVisibleSubCategories | front/src/features/home/components/dashboard/expense-context.tsx:374-379 | an unknown id gives []; otherwise exactly the visible subs of the first category with the id, in their original order and with repeats |
| ExpenseContext.ToggleMovesInAndOutOfVisible | front/src/features/home/components/dashboard/expense-context.tsx:374-379 | a toggled sub of the first matching category is listed as visible afterwards exactly when it was hidden before |
| CsvUploadModal.HandleDrop | front/src/features/home/components/header/CSVUploadModal.tsx:289-327 | every dropped file lands on exactly one side, CSV or not; without a CSV file the only message asks for one |
| CsvUploadModal.Cells | front/src/features/home/components/header/CSVUploadModal.tsx:404-406 | a line gives one cell per comma-separated piece, none holding '"' |
| CsvUploadModal.NonBlankLines | front/src/features/home/components/header/CSVUploadModal.tsx:348 | every kept line has non-blank content |
| CsvUploadModal.MissingFrom | front/src/features/home/components/header/CSVUploadModal.tsx:376-378 | a header is reported exactly when it is expected and absent |
| CsvUploadModal.MissingHeaders | front/src/features/home/components/header/CSVUploadModal.tsx:368-378 | the reported headers are exactly the expected ones the header line lacks |
| CsvUploadModal.MissingHeadersOrder | front/src/features/home/components/header/CSVUploadModal.tsx:368-380 | the missing headers are listed in the fixed order date, category, subcategory, amount, description |
| CsvUploadModal.Field | front/src/features/home/components/header/CSVUploadModal.tsx:413-416 | a field has a value exactly when its header occurs, and then the value is that of the last column with the header |
| CsvUploadModal.CheckLine | front/src/features/home/components/header/CSVUploadModal.tsx:403-446 | a message starts with the line's "行 n: " prefix; a wrong width gives the column-count message; a row is produced exactly when the line passes every check, and then its date, category and amount come from their cells, and subcategory and description from theirs or "" |
| CsvUploadModal.CheckCells | front/src/features/home/components/header/CSVUploadModal.tsx:413-445 | after the width check, a row exactly when the cells pass the field, amount and category checks, built from the cells; any message starts with the line prefix |
| CsvUploadModal.RowsAndErrorsPartition | front/src/features/home/components/header/CSVUploadModal.tsx:403-446 | every checked line gives exactly one row or one message |
| CsvUploadModal.Rows | front/src/features/home/components/header/CSVUploadModal.tsx:439-445 | the rows are exactly the accepted checks, never more than the lines |
| CsvUploadModal.Errors | front/src/features/home/components/header/CSVUploadModal.tsx:409-435 | the messages are exactly the failed checks, never more than the lines |
| CsvUploadModal.CheckLines | front/src/features/home/components/header/CSVUploadModal.tsx:403-446 | one check per data line, in order, numbered from the line after the header |
| CsvUploadModal.ProcessCsvFile | front/src/features/home/components/header/CSVUploadModal.tsx:337-486 | a rejected file has one message: read failure, no data, or missing headers; otherwise the preview holds the rows and messages of the data lines |
| CsvUploadModal.ProcessCsvFileParsed | front/src/features/home/components/header/CSVUploadModal.tsx:346-471 | the preview appears exactly when there are two non-blank lines and every expected header; then rows and messages number the data lines, and every row is complete, positive and of a known category |
| CsvUploadModal.DistinctPairs | front/src/features/home/components/header/CSVUploadModal.tsx:497-506 | the pairs are distinct, and a pair is listed exactly when some row with a non-empty category and subcategory has it |
| CsvUploadModal.DistinctPairsFirstOccurrence | front/src/features/home/components/header/CSVUploadModal.tsx:497-506 | the distinct pairs are listed in the order of the rows that first contribute them |
| CsvUploadModal.AddRowStep | front/src/features/home/components/header/CSVUploadModal.tsx:497-506 | one row keeps the record free of repeats, lists its own pair in addition only when both its category and subcategory are non-empty, and the count grows by one exactly when that pair is new |
| CsvUploadModal.AddRow | front/src/features/home/components/header/CSVUploadModal.tsx:498-505 | a row without both a category and a subcategory changes nothing; otherwise existing categories keep their place and their lists grow only at the end, and a new category is appended with the row's subcategory alone |
| CsvUploadModal.BuildIndexInvariant | front/src/features/home/components/header/CSVUploadModal.tsx:495-506 | the record lists exactly the distinct pairs, each once, and its count is their number |
| CsvUploadModal.BuildIndex | front/src/features/home/components/header/CSVUploadModal.tsx:495-506 | the record has each category once, and every list is non-empty and free of repeats |
| CsvUploadModal.BuildIndexIsGrouped | front/src/features/home/components/header/CSVUploadModal.tsx:495-506 | the record is the distinct pairs grouped by category: categories in order of first contributing row, each with its subcategories in order of first occurrence |
| CsvUploadModal.AsRecord | front/src/features/home/components/header/CSVUploadModal.tsx:495-509 | the record handed to the store has exactly the categories of the index as keys, and for a well-formed index each key maps to that category's list |
| CsvUploadModal.HandleImport | front/src/features/home/components/header/CSVUploadModal.tsx:488-540 | the store keeps its number of categories and the reported count is the number of distinct category and subcategory pairs |
| CsvUploadModal.RecordIsListed | front/src/features/home/components/header/CSVUploadModal.tsx:495-506 | for a well-formed index, the record lists a subcategory under a category exactly when the index does |
| CsvUploadModal.ImportRecordIsPairs | front/src/features/home/components/header/CSVUploadModal.tsx:495-509 | the record handed to the store lists a subcategory under a key exactly when some contributing row pairs them |
| CsvUploadModal.ImportAddsPairs | front/src/features/home/components/header/CSVUploadModal.tsx:495-509 | after the import, every category has a sub named by each non-blank subcategory, trimmed, that a row pairs with the category's key |
| CsvUploadModal.RecordKeyHasPair | front/src/features/home/components/header/CSVUploadModal.tsx:497-504 | a key enters the record only with a subcategory that some contributing row pairs with it |
| CsvUploadModal.ImportAddsNamePairs | front/src/features/home/components/dashboard/expense-context.tsx:329-368 | when no row uses a category's key, every non-blank subcategory paired with its name (the documented Japanese category names), trimmed, names one of its subs afterwards |
| CsvUploadModal.ImportAddsIdPairs | front/src/features/home/components/dashboard/expense-context.tsx:329-368 | when no row uses a category's key or name, every non-blank subcategory paired with its id, trimmed, names one of its subs afterwards |
| CsvUploadModal.ImportKeyShadowsName | front/src/features/home/components/dashboard/expense-context.tsx:329-335 | once a row uses a category's key, its new subs come only from rows with that key: rows naming it by name or id are ignored |
| CsvUploadModal.ImportCategoryOnlyPairs | front/src/features/home/components/dashboard/expense-context.tsx:329-368 | after the import, every sub of a category is one it had or a trimmed subcategory that a row pairs with its key, its name or its id |
| CsvUploadModal.ImportAddsOnlyPairs | front/src/features/home/components/header/CSVUploadModal.tsx:508-509 | the same for every category of the store at once |
| CsvUploadModal.FromDataImported | front/src/features/home/components/dashboard/expense-context.tsx:329-334 | the names the lookup picks from the import record are subcategories a row pairs with the category's key, its name or its id |
| CsvUploadModal.Truncate | front/src/features/home/components/header/CSVUploadModal.tsx:49-55 | the shown items are a prefix of at most the limit; the count of the rest is given exactly when something was cut, and shown plus rest is all |
| CsvUploadModal.ShownErrors | front/src/features/home/components/header/CSVUploadModal.tsx:49-56 | at most the first 10 messages are shown, and "...他 n 件" counts exactly the rest when any are cut |
| CsvUploadModal.ShownRows | front/src/features/home/components/header/CSVUploadModal.tsx:206-229 | at most the first 50 rows are previewed, and "...他 n 件のデータ" counts exactly the rest when any are cut |
| Sidebar.ToggleExpanded | front/src/features/home/components/sidebar/Sidebar.tsx:236-242 | a listed id is removed everywhere and the other ids are kept in order and with repeats; an unlisted one is appended |
| Sidebar.ToggleExpandedKeepsDistinct | front/src/features/home/components/sidebar/Sidebar.tsx:236-242 | toggling keeps the list free of duplicates |
| Sidebar.ToggleExpandedTwiceRestores | front/src/features/home/components/sidebar/Sidebar.tsx:236-242 | expanding an unlisted id and toggling it again gives back the list |
| Sidebar.ToggleExpandedTwiceReorders | front/src/features/home/components/sidebar/Sidebar.tsx:236-242 | collapsing a listed id and toggling it again moves it to the end |
| Sidebar.Initial | front/src/features/home/components/sidebar/Sidebar.tsx:229-231 | the sidebar starts with only the selected main category expanded |
| Sidebar.ClickCategory | front/src/features/home/components/sidebar/Sidebar.tsx:179-183 | a click selects the category with no sub and expands it, keeping every expanded id and adding nothing else |
| Sidebar.SelectSub | front/src/features/home/components/sidebar/Sidebar.tsx:193-196 | choosing a sub selects it with its owning category and expands or collapses nothing |
| Sidebar.SelectAll | front/src/features/home/components/sidebar/Sidebar.tsx:307-310 | "all categories" selects main "" and no sub, and expands or collapses nothing |
| Sidebar.HighlightAfterClicks | front/src/features/home/components/sidebar/Sidebar.tsx:171-196 | after a click exactly that category is highlighted; after choosing a sub no category is, and the sub is |
| Sidebar.ClickNeverCollapses | front/src/features/home/components/sidebar/Sidebar.tsx:179-183 | clicking the same category again leaves the expanded list as it is |
| Table.AmountOf | front/src/features/home/components/dashboard/Table.tsx:109 | an amount is a number exactly when the month has the id, and is never `NaN` on its own |
| Table.SumCells | front/src/features/home/components/dashboard/Table.tsx:112-115 | a row sum is a number exactly when every column is |
| Table.GetTableData | front/src/features/home/components/dashboard/Table.tsx:103-151 | an unknown main gives no rows; otherwise one row per month, in month order |
| Table.SumCategoriesIsSumCells | front/src/features/home/components/dashboard/Table.tsx:107-115 | summing over the categories is summing the row's columns |
| Table.AllCategoriesTotals | front/src/features/home/components/dashboard/Table.tsx:104-117 | with no main selected, the columns are the main categories in order, each with its name, colour and amount for the month, and the total is their sum |
| Table.SubSelectedRows | front/src/features/home/components/dashboard/Table.tsx:124-139 | with a sub selected, one column whose amount is the total; a found sub gives its name and colour, an unknown sub an empty name and colour |
| Table.MainSelectedRows | front/src/features/home/components/dashboard/Table.tsx:141-150 | with only a main selected, the columns are its visible subs in order, each with its name, colour and amount, and the total is the main's own amount |
| Table.MainTotalIsNotSubSum | front/src/features/home/components/dashboard/Table.tsx:141-150 | a month with food 45000 and dining 20000 shows a total of 45000 over a single column of 20000 |
| Dashboard.CurrentCategory | front/src/features/home/components/dashboard/Dashboard.tsx:15-32 | "すべてのカテゴリ" when no main is selected or the main is unknown; otherwise "<main> > <sub>" when a selected sub is found in the main, and the main's name alone when no sub is selected or it is not found |
| Dashboard.SubCategoryCount | front/src/features/home/components/dashboard/Dashboard.tsx:34-42 | with a main selected, the count is its visible subs, 0 for an unknown main |
| Dashboard.Description | front/src/features/home/components/dashboard/Dashboard.tsx:44-55 | the description takes one of three forms: the all-categories counts, the selected-sub text, or the main's visible-sub count |
| Dashboard.FindOwnId | front/src/features/home/components/dashboard/Dashboard.tsx:36-40 | with distinct ids, looking a category up by its own id finds it |
| Dashboard.CountVisiblePrefix | front/src/features/home/components/dashboard/Dashboard.tsx:36-40 | counting categories through id lookups counts their own visible subs |
| Dashboard.CountAllIsVisibleTotal | front/src/features/home/components/dashboard/Dashboard.tsx:34-42 | with no main selected and distinct ids, the count is the total number of visible subs |
| Dashboard.TitleAfterClick | front/src/features/home/components/dashboard/Dashboard.tsx:15-32 | after a sidebar click the title is the clicked category's name, or "all" for an unknown id |
| Dashboard.TitleAfterSelectSub | front/src/features/home/components/dashboard/Dashboard.tsx:22-31 | choosing a known sub of a known category titles the dashboard "main > sub" |
| Dashboard.CountMatchesTableColumns | front/src/features/home/components/dashboard/Dashboard.tsx:34-42 | with only a main selected, the count shown equals the number of table columns |
| Schema.CheckPasswordPattern | front/src/utils/schema.ts:10-19 | the one-pass test accepts exactly the passwords the pattern matches |
| Schema.PasswordIssues | front/src/utils/schema.ts:9-19 | a password has no issue exactly when it matches the pattern, and every issue is reported under "password" |
| Schema.EmailIssues | front/src/utils/schema.ts:6 | an email has no issue exactly when the address check accepts it |
| Schema.SignInIssues | front/src/utils/schema.ts:22 | sign-in passes exactly when the email is valid and the password matches the full pattern |
| Schema.ConfirmationIssues | front/src/utils/schema.ts:24-28 | confirmation passes exactly when the base fields do and the code has exactly six UTF-16 code units |
| Schema.SignUpIssues | front/src/utils/schema.ts:30-42 | sign-up passes exactly when the base fields do, the confirmation is non-empty and equal to the password, and the terms were accepted |
| Schema.ShortPasswordReportsBoth | front/src/utils/schema.ts:9-19 | a password shorter than eight UTF-16 code units reports both the length and the pattern message |
| Schema.AdmittedAreSingleUnits | front/src/utils/schema.ts:12-18 | every character the password pattern admits is one UTF-16 code unit, so a matching password's length is its code-unit count |
| Schema.EmojiCodeHasSixUnits | front/src/utils/schema.ts:25 | "1234😀" is five characters but six UTF-16 code units |
| Schema.EmojiCodePassesLengthRule | front/src/utils/schema.ts:24-28 | with a valid email and password, the code "1234😀" passes the six-unit length rule |
| Schema.EmojiPasswordIsNotShort | front/src/utils/schema.ts:9-19 | "Ab!😀😀😀" is six characters but nine code units, so only the pattern message is reported |
| Schema.DigitNotRequired | front/src/utils/schema.ts:12-18 | "Abcdefg!" has no digit and still matches |
| Schema.SymbolRequired | front/src/utils/schema.ts:12-18 | "Abcdefg1" is rejected by the pattern alone |
| Schema.MismatchReportedAtConfirmPassword | front/src/utils/schema.ts:39-42 | a mismatch with everything else valid is the single issue "パスワードが一致しません" under "confirmPassword" |
| Schema.NoMismatchWithoutConsent | front/src/utils/schema.ts:35-42 | without consent the terms issue is reported and the mismatch is not |
| SignUpScreen.SanitizeCode | front/src/features/auth/components/SignUp.tsx:271-279 | the code is all digits, at most six, and is the first of the typed digits in order |
| SignUpScreen.SanitizeIdempotent | front/src/features/auth/components/SignUp.tsx:271-279 | sanitising twice is sanitising once |
| SignUpScreen.NonDigitIgnored | front/src/features/auth/components/SignUp.tsx:271-279 | typing a non-digit leaves the code unchanged |
| SignUpScreen.FullCodeIgnoresMore | front/src/features/auth/components/SignUp.tsx:271-279 | once six digits are in, anything typed after them is dropped |
| SignUpScreen.SubmitEnabledOnSanitized | front/src/features/auth/components/SignUp.tsx:301-306 | the button is enabled exactly when six digits were typed and nothing is loading, and then the code passes the schema's length rule |
| SignUpScreen.OnSignUpState | front/src/features/auth/components/SignUp.tsx:359-369 | sign-up success moves to verification; a real error is shown; otherwise nothing happens |
| SignUpScreen.OnConfirmState | front/src/features/auth/components/SignUp.tsx:183-198 | confirmation success signs in with the form's email and password; a real error is shown |
| SignUpScreen.OnSignInState | front/src/features/auth/components/SignUp.tsx:200-212 | sign-in success navigates to "/app"; a real error is shown |
| SignUpScreen.Apply | front/src/features/auth/components/SignUp.tsx:458-473 | reaching verification mounts the verification panel with no alert and copies the sign-up email and password into the confirmation form; an alert only sets the alert; the sign-up form never changes |
| SignUpScreen.Back | front/src/features/auth/components/SignUp.tsx:323 | going back mounts the sign-up panel with no alert and keeps both forms |
| SignUpScreen.TypeCode | front/src/features/auth/components/SignUp.tsx:271-279 | typing stores the sanitised code and changes nothing else of the forms or the step |
| SignUpScreen.FlowSignsInWithSignUpCredentials | front/src/features/auth/components/SignUp.tsx:183-212 | after a successful sign-up and confirmation the screen signs in with the sign-up credentials, whatever code was typed, and then opens "/app" |
| SignUpScreen.SuccessThenBack | front/src/features/auth/components/SignUp.tsx:359-369 | a start then a success moves to verification with no alert, and going back restores the step with the sign-up form as typed and no alert |
| SignUpScreen.FailureStaysOnSignUp | front/src/features/auth/components/SignUp.tsx:359-369 | a failed sign-up keeps the sign-up step and shows the error |

## Left out

- I/O is a set of parameters, not modelled: the SSM, S3, DynamoDB, Cognito and Amplify storage calls; the Shift-JIS and encoding-detection conversions; the CSV parser's internals; `decodeURIComponent`; `localStorage`; `Date.now` (the id timestamp of new subcategories); uuid generation.
- The parser's header handling, blank-line skipping and numeric auto-typing are assumed of the parser parameter and not proved.
- Logging: `Lambda` records the handler's own log entries (the invocation event, a failure under its heading, and completion) as effects; the decorators' and the logger's other calls are not modelled.
- Amounts are integers. `Number.parseFloat` is a parameter returning an optional integer, so fractional amounts and floating-point rounding are not modelled.
- The async decorator is modelled by the same `Decorate` as the sync one: a rejected promise is the failure case.
- The timers, toasts, staggered multi-file processing, the resend timer of the sign-up screen, rendering, icons and routing are not modelled.
- JavaScript prototype properties of plain objects (a category named `constructor`, say) are not modelled; object keys are map keys.
- `GeneralError` is not defined in front/src/utils/error/error.ts as present in the repository. `AppErrors.GeneralError` builds it from `GENERAL_ERROR`, like the other table-driven classes.
- Schema.EmailIssues: the e-mail syntax check of the schema library is a parameter.
- Schema.SignUpIssues: an issue is only its path and message; the library's codes and issue ordering beyond the model's are not modelled.
- Dashboard.CountAllIsVisibleTotal: requires distinct category ids, because with repeated ids the lookup counts the first match for each.
- Sidebar.ToggleExpandedTwiceRestores: holds only for an id not yet listed; `Sidebar.ToggleExpandedTwiceReorders` shows the other case.
- CsvUploadModal.Field: with repeated headers the last column wins, as in the object assignment; nothing more is said about such files.
- HandleExpenseData.ExtractExpenseMonth: for a number or boolean date the `TypeError` text is "match is not a function"; V8 prefixes the rendered call expression, which the model does not reproduce.
- CalcExpense.GetCategory: for a number or boolean 中項目 the `TypeError` text is "match is not a function"; V8 prefixes the rendered call expression, which the model does not reproduce.
- Table.GetTableData: the ensures cover the row count and months; the columns and totals of each case are in `Table.AllCategoriesTotals`, `Table.SubSelectedRows` and `Table.MainSelectedRows`.
- HandleDynamo.WriteIgnoresIdentity: the stored user id is the constant "user1", as written; the intended use of the identity is not modelled.
- Cards.tsx, Chart.tsx, the GraphQL query, the route guards and the account-settings modal are not part of this model.

## Findings

| source | as written | input that shows it | evidently intended | confidence | as-written member | corrected member |
|---|---|---|---|---|---|---|
| front/src/features/auth/error/error.ts:9-15 | the definition is destructured before the check for a missing one, so an undefined code throws a `TypeError` and the `UnknownError` guard never runs | `new AuthError("NoSuchException")` | an undefined code throws `UnknownError`, as `StorageError` does | high; not executed | AuthErrors.AuthErrorGuardUnreachable | AuthErrors.AuthErrorCorrectedAgrees |
| front/src/features/home/components/dashboard/expense-context.tsx:311-320 | the sub is looked up in the list from before the toggle, so the selection is cleared when a hidden sub is shown and kept when the selected sub is hidden | selected "dining" under "food", visible, toggled to hidden: it stays selected | clear the selection when the toggle hides the selected sub | high; not executed | ExpenseContext.ToggleLeavesHiddenSubSelected | ExpenseContext.ToggleCorrected |
