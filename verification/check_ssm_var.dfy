/**
 * `CheckSsmVar`: validates every required parameter with its strategy,
 * collects the invalid ones in a record that belongs to the instance, and
 * throws when a parameter has no strategy or the record is non-empty.
 */
module CheckSsmVar {
  import opened Base
  import opened BackErrors
  import Text
  import SsmVarStrategy
  import SsmVarPolicy

  /** A parameter name and its value (`undefined` when the store had none). */
  type Entry = (string, Option<string>)

  /**
   * A validator instance: the parameters it was built with, in
   * `Object.entries` order, and its record of invalid parameters in
   * insertion order.
   */
  datatype Checker = Checker(required: seq<Entry>, invalid: seq<Entry>)

  /** `new CheckSsmVar(required)`: the record starts empty. */
  function NewChecker(required: seq<Entry>): Checker {
    Checker(required, [])
  }

  /** The keys of a record or of the parameters, in order (`Object.keys`). */
  function Keys(rec: seq<Entry>): (r: seq<string>)
    ensures |r| == |rec|
    ensures forall i :: 0 <= i < |rec| ==> r[i] == rec[i].0
  {
    if |rec| == 0 then [] else [rec[0].0] + Keys(rec[1..])
  }

  /**
   * `record[key] = value`: an existing key keeps its position and takes the
   * new value; a new key is appended.
   */
  function Put(rec: seq<Entry>, key: string, value: Option<string>): (r: seq<Entry>)
    ensures key in Keys(r)
    ensures forall k :: k in Keys(rec) ==> k in Keys(r)
    ensures forall k :: k in Keys(r) ==> k in Keys(rec) || k == key
    ensures key in Keys(rec) ==> |r| == |rec|
    ensures key !in Keys(rec) ==> r == rec + [(key, value)]
  {
    if |rec| == 0 then [(key, value)]
    else if rec[0].0 == key then [(key, value)] + rec[1..]
    else [rec[0]] + Put(rec[1..], key, value)
  }

  /** Whether a parameter has a strategy and passes it. */
  predicate Passes(e: Entry) {
    SsmVarStrategy.StrategyFor(e.0).Some? && SsmVarStrategy.CheckSsmVar(SsmVarStrategy.StrategyFor(e.0).value, e.1)
  }

  /** How the loop over the parameters ends. */
  datatype ScanEnd = Finished(rec: seq<Entry>) | MissingStrategy(rec: seq<Entry>, key: string)

  /** The loop of `validate`: the record it leaves behind, or the first key without a strategy. */
  function Scan(entries: seq<Entry>, rec: seq<Entry>): (r: ScanEnd)
    ensures r.MissingStrategy? ==>
      exists i :: 0 <= i < |entries| && SsmVarStrategy.StrategyFor(entries[i].0).None? && r.key == entries[i].0
    ensures forall k :: k in Keys(rec) ==> k in Keys(r.rec)
    ensures forall k :: k in Keys(r.rec) ==>
      k in Keys(rec) || exists i :: 0 <= i < |entries| && entries[i].0 == k && !Passes(entries[i])
    ensures r.Finished? ==> forall i :: 0 <= i < |entries| && !Passes(entries[i]) ==> entries[i].0 in Keys(r.rec)
    decreases |entries|
  {
    if |entries| == 0 then Finished(rec)
    else
      assert forall i :: 1 <= i < |entries| ==> entries[1..][i - 1] == entries[i];
      match SsmVarStrategy.StrategyFor(entries[0].0)
      case None => MissingStrategy(rec, entries[0].0)
      case Some(st) =>
        Scan(entries[1..], if SsmVarStrategy.CheckSsmVar(st, entries[0].1) then rec else Put(rec, entries[0].0, entries[0].1))
  }

  /**
   * `validate()`, decorated: the instance after the call (its record may
   * have grown) and the call's outcome.
   */
  function Validate(c: Checker): (r: (Checker, Outcome<()>))
    ensures r.0.required == c.required
    ensures forall k :: k in Keys(c.invalid) ==> k in Keys(r.0.invalid)
    ensures r.1.Ok? ==> c.invalid == [] && forall i :: 0 <= i < |c.required| ==> Passes(c.required[i])
    ensures r.1.Err? ==> r.1.error.JsError? && r.1.error.kind == AppError("validate")
    ensures r.1.Err? && Scan(c.required, c.invalid).Finished? ==> |r.0.invalid| > 0
  {
    match Scan(c.required, c.invalid)
    case MissingStrategy(rec, key) =>
      (Checker(c.required, rec), Decorate("validate", Throw("Strategy not found: " + key)))
    case Finished(rec) =>
      if |rec| > 0 then
        (Checker(c.required, rec),
         Decorate("validate", Throw("Invalid environment variables: " + Text.Join(Keys(rec), ", "))))
      else
        assert c.invalid != [] ==> Keys(c.invalid)[0] in Keys(c.invalid);
        assert Keys(rec) == [];
        (Checker(c.required, rec), Ok(()))
  }

  /** A record the loop ends with is empty only if it started empty and nothing was invalid. */
  lemma {:induction false} ScanFinishes(entries: seq<Entry>, rec: seq<Entry>)
    ensures (forall i :: 0 <= i < |entries| ==> SsmVarStrategy.StrategyFor(entries[i].0).Some?) <==> Scan(entries, rec).Finished?
    ensures Scan(entries, rec).Finished? ==>
      (Scan(entries, rec).rec == [] <==> rec == [] && forall i :: 0 <= i < |entries| ==> Passes(entries[i]))
  {
    if |entries| > 0 {
      var st := SsmVarStrategy.StrategyFor(entries[0].0);
      if st.Some? {
        var next := if SsmVarStrategy.CheckSsmVar(st.value, entries[0].1) then rec else Put(rec, entries[0].0, entries[0].1);
        ScanFinishes(entries[1..], next);
        assert forall i :: 1 <= i < |entries| ==> entries[i] == entries[1..][i - 1];
      }
    }
  }

  /**
   * A fresh validator succeeds exactly when every parameter has a strategy
   * and passes it; a failure is an `AppError` of `validate`.
   */
  lemma ValidateSucceedsIff(required: seq<Entry>)
    ensures Validate(NewChecker(required)).1.Ok? <==> forall i :: 0 <= i < |required| ==> Passes(required[i])
    ensures Validate(NewChecker(required)).1.Err? ==>
      Validate(NewChecker(required)).1.error.JsError? &&
      Validate(NewChecker(required)).1.error.kind == AppError("validate")
  {
    ScanFinishes(required, []);
  }

  /** The loop stops at the first parameter without a strategy, whatever precedes it. */
  lemma {:induction false} ScanStopsAtMissing(entries: seq<Entry>, rec: seq<Entry>, i: nat)
    requires i < |entries| && SsmVarStrategy.StrategyFor(entries[i].0).None?
    requires forall j :: 0 <= j < i ==> SsmVarStrategy.StrategyFor(entries[j].0).Some?
    ensures Scan(entries, rec).MissingStrategy? && Scan(entries, rec).key == entries[i].0
  {
    if i > 0 {
      var st := SsmVarStrategy.StrategyFor(entries[0].0);
      var next := if SsmVarStrategy.CheckSsmVar(st.value, entries[0].1) then rec else Put(rec, entries[0].0, entries[0].1);
      assert forall j :: 0 <= j < i - 1 ==> entries[1..][j] == entries[j + 1];
      ScanStopsAtMissing(entries[1..], next, i - 1);
    }
  }

  /** A parameter without a strategy is reported by name, even after invalid ones. */
  lemma MissingStrategyReported(c: Checker, i: nat)
    requires i < |c.required| && SsmVarStrategy.StrategyFor(c.required[i].0).None?
    requires forall j :: 0 <= j < i ==> SsmVarStrategy.StrategyFor(c.required[j].0).Some?
    ensures Validate(c).1 == Err(JsError(AppError("validate"), "Strategy not found: " + c.required[i].0))
  {
    ScanStopsAtMissing(c.required, c.invalid, i);
  }

  /**
   * The parameter set the function validates: the category list passes
   * exactly when it is a comma-separated list, and otherwise it is named
   * in the error.
   */
  lemma CategoryListValidation(value: Option<string>)
    ensures var out := Validate(NewChecker([("CATEGORY_LIST", value)])).1;
      && (out.Ok? <==> SsmVarPolicy.Check(SsmVarPolicy.CommaSeparated, value))
      && (out.Err? ==> out == Err(JsError(AppError("validate"), "Invalid environment variables: CATEGORY_LIST")))
  {
    var e: Entry := ("CATEGORY_LIST", value);
    var st := SsmVarStrategy.CategoryListValidationStrategy;
    var pass := SsmVarStrategy.CheckSsmVar(st, value);
    assert [e][1..] == [];
    assert Put([], e.0, e.1) == [e];
    assert Scan([e], []) == Scan([], if pass then [] else [e]);
    assert Keys([e]) == ["CATEGORY_LIST"];
    assert Text.Join(["CATEGORY_LIST"], ", ") == "CATEGORY_LIST";
    assert "Invalid environment variables: " + "CATEGORY_LIST" == "Invalid environment variables: CATEGORY_LIST";
    if !pass {
      assert Validate(NewChecker([e])).1 == Decorate("validate", Throw("Invalid environment variables: " + "CATEGORY_LIST"));
    }
  }

  /** A record only grows: once an instance has failed validation, it fails every later call. */
  lemma {:induction false} ScanKeepsRecord(entries: seq<Entry>, rec: seq<Entry>)
    requires Scan(entries, rec).Finished?
    ensures |Scan(entries, rec).rec| >= |rec|
  {
    if |entries| > 0 {
      var st := SsmVarStrategy.StrategyFor(entries[0].0);
      var next := if SsmVarStrategy.CheckSsmVar(st.value, entries[0].1) then rec else Put(rec, entries[0].0, entries[0].1);
      ScanKeepsRecord(entries[1..], next);
    }
  }

  lemma FailureIsSticky(c: Checker)
    requires Scan(c.required, c.invalid).Finished?
    requires Validate(c).1.Err?
    ensures Validate(Validate(c).0).1.Err?
  {
    var rec := Scan(c.required, c.invalid).rec;
    assert |rec| > 0;
    assert Validate(c).0 == Checker(c.required, rec);
    ScanFinishes(c.required, c.invalid);
    ScanFinishes(c.required, rec);
    ScanKeepsRecord(c.required, rec);
  }
}
