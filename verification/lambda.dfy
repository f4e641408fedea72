/**
 * The handler of the aggregation function: loads and validates the
 * configuration, then, inside a try/catch/finally, runs the stages
 * fetch, decode, identity, parse and month, aggregate and write. Every
 * external service is a parameter; logging is recorded as effects.
 */
module Lambda {
  import opened Base
  import opened Js
  import opened BackErrors
  import Text
  import CsvToJson
  import SsmVarPolicy
  import CheckSsmVar
  import HandleExpenseData
  import CalcExpense
  import HandleS3Event
  import HandleDynamo

  /** The services one invocation talks to. */
  datatype Services = Services(
    /** `GetParameter` for the category list: `Parameter?.Value`, or a failure. */
    ssmParameter: Outcome<Option<string>>,
    getObject: HandleS3Event.GetObject,
    decodeUri: HandleS3Event.DecodeUri,
    /** `new TextDecoder("shift-jis").decode`: total, malformed bytes become U+FFFD. */
    shiftJis: HandleS3Event.Bytes -> string,
    parse: string -> CsvToJson.ParseOutput,
    strToNum: string -> Number,
    /** The id `uuidv4()` returns. */
    uuid: string,
    put: HandleDynamo.Item -> Outcome<()>)

  /** What an invocation does that can be observed outside it. */
  datatype Effect =
    | LoggedInvocation
    | Fetched(bucket: string, key: string)
    | Wrote(item: HandleDynamo.Item)
    | LoggedFailure(heading: string, error: Thrown)
    | LoggedCompletion

  /** The thrown value that escapes the handler, if any, and the effects in order. */
  datatype Invocation = Invocation(escaped: Option<Thrown>, effects: seq<Effect>)

  /** `getParameters()`, decorated: the single parameter the function reads. */
  function GetParameters(s: Services): (r: Outcome<seq<CheckSsmVar.Entry>>)
    ensures s.ssmParameter.Ok? <==> r.Ok?
    ensures r.Ok? ==> r.value == [("CATEGORY_LIST", s.ssmParameter.value)]
    ensures r.Err? ==> r.error.JsError? && r.error.kind == AppError("getParameters")
  {
    Decorate("getParameters",
      var v :- s.ssmParameter;
      Ok([("CATEGORY_LIST", v)]))
  }

  /** `init()`: fetch the parameters and validate them with a fresh validator. */
  function Init(s: Services): (r: Outcome<seq<CheckSsmVar.Entry>>)
    ensures r.Ok? <==> s.ssmParameter.Ok? && SsmVarPolicy.Check(SsmVarPolicy.CommaSeparated, s.ssmParameter.value)
    ensures r.Ok? ==> r.value == [("CATEGORY_LIST", s.ssmParameter.value)]
  {
    var params :- GetParameters(s);
    CheckSsmVar.CategoryListValidation(s.ssmParameter.value);
    var _ :- CheckSsmVar.Validate(CheckSsmVar.NewChecker(params)).1;
    Ok(params)
  }

  /** `requiredSsmVars.CATEGORY_LIST!.split(",")`; reading `split` of `undefined` throws. */
  function CategoryList(params: seq<CheckSsmVar.Entry>): Outcome<seq<string>> {
    if |params| > 0 && params[0].0 == "CATEGORY_LIST" && params[0].1.Some? then
      Ok(Text.Split(params[0].1.value, ','))
    else Err(JsError(TypeError, ReadOfUndefined("split")))
  }

  /** The `(bucket, key)` request `getCSVContents` sends, once the key has been decoded. */
  function FetchRequest(event: HandleS3Event.S3Event, s: Services): Option<(string, string)> {
    match HandleS3Event.DecodedKey(event, s.decodeUri)
    case Ok(key) => Some((event[0].bucket, key))
    case Err(_) => None
  }

  /** How the try block ran: the object it requested, the item it wrote, and how it ended. */
  datatype TryResult = TryResult(fetched: Option<(string, string)>, written: Option<HandleDynamo.Item>, outcome: Outcome<()>)

  /** The body of the try block. */
  function TryBlock(event: HandleS3Event.S3Event, params: seq<CheckSsmVar.Entry>, s: Services): (r: TryResult)
    ensures CategoryList(params).Err? ==> r.fetched.None? && r.written.None? && r.outcome == Err(CategoryList(params).error)
    ensures CategoryList(params).Ok? ==> r.fetched == FetchRequest(event, s)
    ensures r.written.Some? ==> r.fetched.Some?
    ensures r.written.None? ==> r.outcome.Err?
    ensures r.written.Some? ==> (r.outcome.Ok? <==> s.put(r.written.value).Ok?)
  {
    match CategoryList(params)
    case Err(e) => TryResult(None, None, Err(e))
    case Ok(categories) =>
      var fetched := FetchRequest(event, s);
      match HandleS3Event.GetCSVContents(event, s.decodeUri, s.getObject)
      case Err(e) => TryResult(fetched, None, Err(e))
      case Ok(bytes) =>
        var csv := s.shiftJis(bytes);
        match HandleS3Event.GetIdentityId(event, s.decodeUri)
        case Err(e) => TryResult(fetched, None, Err(e))
        case Ok(identityId) =>
          match HandleExpenseData.Extract(s.parse, csv)
          case Err(e) => TryResult(fetched, None, Err(e))
          case Ok(extracted) =>
            match CalcExpense.SumByCategory(categories, extracted.0, s.strToNum)
            case Err(e) => TryResult(fetched, None, Err(e))
            case Ok(sums) =>
              TryResult(fetched, Some(HandleDynamo.BuildItem(sums, extracted.1, s.uuid)),
                        HandleDynamo.Write(s.put, sums, extracted.1, identityId, s.uuid))
  }

  /** The heading the catch block logs a failure under. */
  function FailureHeading(e: Thrown): string {
    if e.JsError? then APPLICATION_ERROR_MESSAGE else UNKNOWN_ERROR_MESSAGE
  }

  /** The effects of the try block, the catch block and the finally block, in order. */
  function Effects(t: TryResult): seq<Effect> {
    (if t.fetched.Some? then [Fetched(t.fetched.value.0, t.fetched.value.1)] else [])
    + (if t.written.Some? then [Wrote(t.written.value)] else [])
    + (if t.outcome.Err? then [LoggedFailure(FailureHeading(t.outcome.error), t.outcome.error)] else [])
    + [LoggedCompletion]
  }

  /**
   * `handleEvent(event)`: the event is logged first; `init` runs before the
   * try block, so its failures escape.
   */
  function HandleEvent(event: HandleS3Event.S3Event, s: Services): (r: Invocation)
    ensures |r.effects| > 0 && r.effects[0] == LoggedInvocation
    ensures r.escaped.Some? <==> Init(s).Err?
    ensures r.escaped.None? ==> r.effects[|r.effects| - 1] == LoggedCompletion
  {
    match Init(s)
    case Err(e) => Invocation(Some(e), [LoggedInvocation])
    case Ok(params) => Invocation(None, [LoggedInvocation] + Effects(TryBlock(event, params, s)))
  }

  /** The number of writes among the effects. */
  function WriteCount(effects: seq<Effect>): nat {
    if |effects| == 0 then 0 else (if effects[0].Wrote? then 1 else 0) + WriteCount(effects[1..])
  }

  lemma {:induction false} WriteCountAppend(a: seq<Effect>, b: seq<Effect>)
    ensures WriteCount(a + b) == WriteCount(a) + WriteCount(b)
  {
    if |a| > 0 {
      assert (a + b)[0] == a[0];
      assert (a + b)[1..] == a[1..] + b;
      WriteCountAppend(a[1..], b);
    } else {
      assert a + b == b;
    }
  }

  /** Every stage of the try block after the split succeeds. */
  predicate StagesSucceed(event: HandleS3Event.S3Event, s: Services, categories: seq<string>) {
    var bytes := HandleS3Event.GetCSVContents(event, s.decodeUri, s.getObject);
    && bytes.Ok?
    && HandleS3Event.GetIdentityId(event, s.decodeUri).Ok?
    && HandleExpenseData.Extract(s.parse, s.shiftJis(bytes.value)).Ok?
    && CalcExpense.SumByCategory(categories, HandleExpenseData.Extract(s.parse, s.shiftJis(bytes.value)).value.0, s.strToNum).Ok?
  }

  /** The item those stages lead to: the sums of the very rows the month was taken from. */
  function ExpectedItem(event: HandleS3Event.S3Event, s: Services, categories: seq<string>): HandleDynamo.Item
    requires StagesSucceed(event, s, categories)
  {
    var bytes := HandleS3Event.GetCSVContents(event, s.decodeUri, s.getObject).value;
    var extracted := HandleExpenseData.Extract(s.parse, s.shiftJis(bytes)).value;
    HandleDynamo.BuildItem(CalcExpense.SumByCategory(categories, extracted.0, s.strToNum).value, extracted.1, s.uuid)
  }

  // ---------------------------------------------------------------------------
  // Properties of the handler

  /**
   * A configuration failure escapes the handler after the invocation log
   * entry: nothing is fetched or written, and neither the failure nor the
   * completion is logged.
   */
  lemma InitFailureEscapes(event: HandleS3Event.S3Event, s: Services)
    requires Init(s).Err?
    ensures HandleEvent(event, s) == Invocation(Some(Init(s).error), [LoggedInvocation])
  {
  }

  /**
   * The two ways configuration fails: the store call, or a category list the
   * policy rejects; otherwise the try block works on the list split on ",".
   */
  lemma InitOutcomes(s: Services)
    ensures s.ssmParameter.Err? ==> Init(s) == Err(GetParameters(s).error)
    ensures s.ssmParameter.Ok? && !SsmVarPolicy.Check(SsmVarPolicy.CommaSeparated, s.ssmParameter.value) ==>
      Init(s) == Err(JsError(AppError("validate"), "Invalid environment variables: CATEGORY_LIST"))
    ensures Init(s).Ok? <==> s.ssmParameter.Ok? && SsmVarPolicy.Check(SsmVarPolicy.CommaSeparated, s.ssmParameter.value)
    ensures Init(s).Ok? ==> CategoryList(Init(s).value) == Ok(Text.Split(s.ssmParameter.value.value, ','))
  {
    if s.ssmParameter.Ok? {
      CheckSsmVar.CategoryListValidation(s.ssmParameter.value);
    }
  }

  /**
   * Once configuration succeeded, nothing escapes: a failure in the try block
   * is logged once under the application-error heading, and completion is
   * always logged last.
   */
  lemma TryBlockNeverEscapes(event: HandleS3Event.S3Event, s: Services)
    requires Init(s).Ok?
    ensures HandleEvent(event, s).escaped.None?
    ensures var effects := HandleEvent(event, s).effects;
      && |effects| > 0 && effects[|effects| - 1] == LoggedCompletion
      && var t := TryBlock(event, Init(s).value, s);
         (t.outcome.Err? ==> effects[|effects| - 2] == LoggedFailure(APPLICATION_ERROR_MESSAGE, t.outcome.error))
  {
    var t := TryBlock(event, Init(s).value, s);
    InitOutcomes(s);
  }

  /** The try block writes exactly when every stage succeeds, and then writes the expected item. */
  lemma {:induction false} TryBlockWrites(event: HandleS3Event.S3Event, s: Services, params: seq<CheckSsmVar.Entry>)
    requires CategoryList(params).Ok?
    ensures var t := TryBlock(event, params, s);
      && (t.written.Some? <==> StagesSucceed(event, s, CategoryList(params).value))
      && (t.written.Some? ==> t.written.value == ExpectedItem(event, s, CategoryList(params).value))
  {
  }

  /**
   * At most one write per invocation; with valid configuration, one happens
   * exactly when every stage succeeds, and it stores the sums of the rows
   * the month was taken from, over the validated category list split on ",".
   */
  lemma AtMostOneWrite(event: HandleS3Event.S3Event, s: Services)
    ensures WriteCount(HandleEvent(event, s).effects) <= 1
    ensures Init(s).Ok? ==> (
      && s.ssmParameter.value.Some?
      && var categories := Text.Split(s.ssmParameter.value.value, ',');
         && (WriteCount(HandleEvent(event, s).effects) == 1 <==> StagesSucceed(event, s, categories))
         && (StagesSucceed(event, s, categories) ==> Wrote(ExpectedItem(event, s, categories)) in HandleEvent(event, s).effects))
  {
    InitOutcomes(s);
    if Init(s).Ok? {
      var t := TryBlock(event, Init(s).value, s);
      TryBlockWrites(event, s, Init(s).value);
      EffectsWrites(t);
      WriteCountAppend([LoggedInvocation], Effects(t));
      assert WriteCount([LoggedInvocation]) == 0;
    }
  }

  /** The effects of one try block hold a write exactly when it wrote, and at most one. */
  lemma EffectsWrites(t: TryResult)
    ensures WriteCount(Effects(t)) == if t.written.Some? then 1 else 0
    ensures t.written.Some? ==> Wrote(t.written.value) in Effects(t)
  {
    var a: seq<Effect> := if t.fetched.Some? then [Fetched(t.fetched.value.0, t.fetched.value.1)] else [];
    var b: seq<Effect> := if t.written.Some? then [Wrote(t.written.value)] else [];
    var c: seq<Effect> := if t.outcome.Err? then [LoggedFailure(FailureHeading(t.outcome.error), t.outcome.error)] else [];
    assert Effects(t) == a + b + c + [LoggedCompletion];
    WriteCountAppend(a, b);
    WriteCountAppend(a + b, c);
    WriteCountAppend(a + b + c, [LoggedCompletion]);
    assert WriteCount(a) == 0 && WriteCount(c) == 0 && WriteCount([LoggedCompletion]) == 0;
    assert WriteCount(b) == if t.written.Some? then 1 else 0;
    if t.written.Some? {
      assert Effects(t)[|a|] == Wrote(t.written.value);
    }
  }

  /**
   * The object is requested before the identity is extracted: a decodable
   * key is fetched even when it holds no identity, and then nothing is written.
   */
  lemma FetchPrecedesIdentity(event: HandleS3Event.S3Event, s: Services)
    requires Init(s).Ok?
    requires HandleS3Event.DecodedKey(event, s.decodeUri).Ok?
    requires HandleS3Event.GetIdentityId(event, s.decodeUri).Err?
    ensures HandleEvent(event, s).effects[..2] == [LoggedInvocation, Fetched(event[0].bucket, HandleS3Event.DecodedKey(event, s.decodeUri).value)]
    ensures WriteCount(HandleEvent(event, s).effects) == 0
  {
    InitOutcomes(s);
    AtMostOneWrite(event, s);
  }
}
