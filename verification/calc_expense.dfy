/**
 * `CalcExpense.sumByCategory`: sums the spending rows of a statement into
 * four buckets chosen by the leading digit of the sub-category, starting
 * from a whitelist of keys at zero, and reports absolute values.
 */
module CalcExpense {
  import opened Base
  import opened Js
  import opened BackErrors
  import opened CsvToJson

  const REG_FIXED_COST: string := "regFixedCost"
  const REG_VAR_COST: string := "regVarCost"
  const IRREG_FIXED_COST: string := "irregFixedCost"
  const IRREG_VAR_COST: string := "irregVarCost"

  /** The four bucket names of `categoryMap`. */
  const BUCKETS: set<string> := {REG_FIXED_COST, REG_VAR_COST, IRREG_FIXED_COST, IRREG_VAR_COST}

  /** A running or final sum record: key to number. */
  type Sums = map<string, Number>

  /** `categoryMap[d]` for a leading digit matched by `/^[1-4]/`. */
  function BucketOfDigit(d: char): (r: Option<string>)
    ensures r.Some? <==> '1' <= d <= '4'
    ensures r.Some? ==> r.value in BUCKETS
  {
    if d == '1' then Some(REG_FIXED_COST)
    else if d == '2' then Some(REG_VAR_COST)
    else if d == '3' then Some(IRREG_FIXED_COST)
    else if d == '4' then Some(IRREG_VAR_COST)
    else None
  }

  /**
   * `getCategory`: the bucket of the leading digit of 中項目; a string not
   * starting with 1-4 is an error naming the value, and a cell that is not
   * a string (a numeric sub-category after dynamic typing, or a missing one)
   * makes `.match` throw a `TypeError`.
   */
  function GetCategory(row: Row): (r: Outcome<string>)
    ensures r.Ok? <==> Field(row, SUB_CATEGORY).Str? && |Field(row, SUB_CATEGORY).s| > 0 &&
                       '1' <= Field(row, SUB_CATEGORY).s[0] <= '4'
    ensures r.Ok? ==> r.value in BUCKETS
    ensures r.Err? && Field(row, SUB_CATEGORY).Str? ==>
      r == Throw("invalid category format: " + Field(row, SUB_CATEGORY).s)
    ensures !Field(row, SUB_CATEGORY).Str? ==>
      r == Err(JsError(TypeError, MethodOnNonString(Field(row, SUB_CATEGORY), "match")))
  {
    match Field(row, SUB_CATEGORY)
    case Str(s) =>
      if |s| > 0 && BucketOfDigit(s[0]).Some? then Ok(BucketOfDigit(s[0]).value)
      else Throw("invalid category format: " + s)
    case v => Err(JsError(TypeError, MethodOnNonString(v, "match")))
  }

  /** The bucket is fixed by the first character alone. */
  lemma BucketByLeadingDigit(row: Row, other: Row)
    requires Field(row, SUB_CATEGORY).Str? && Field(other, SUB_CATEGORY).Str?
    requires |Field(row, SUB_CATEGORY).s| > 0 && |Field(other, SUB_CATEGORY).s| > 0
    requires Field(row, SUB_CATEGORY).s[0] == Field(other, SUB_CATEGORY).s[0]
    requires GetCategory(row).Ok?
    ensures GetCategory(other) == GetCategory(row)
  {
  }

  /** `initializeZeroValueObject`: every whitelist key at 0; repeated keys collapse. */
  function InitializeZero(keys: seq<string>): (r: Sums)
    ensures r.Keys == set k | k in keys
    ensures forall k :: k in r ==> r[k] == Finite(0)
  {
    if |keys| == 0 then map[] else InitializeZero(keys[..|keys| - 1])[keys[|keys| - 1] := Finite(0)]
  }

  /**
   * Whether the loop reaches the category lookup for `row`: 計算対象 is truthy
   * and the amount is not greater than zero (a zero amount is processed).
   */
  predicate Processed(row: Row, strToNum: string -> Number) {
    Truthy(Field(row, COUNTED)) && !GreaterThanZero(Field(row, AMOUNT), strToNum)
  }

  /** `sums[category]`, where a key never initialised reads as `undefined`. */
  function Lookup(sums: Sums, key: string): Number {
    if key in sums then sums[key] else NaN
  }

  /** One iteration of the loop. */
  function Step(sums: Sums, row: Row, strToNum: string -> Number): Outcome<Sums> {
    if !Processed(row, strToNum) then Ok(sums)
    else
      var category :- GetCategory(row);
      match Field(row, AMOUNT)
      case Num(n) => Ok(sums[category := Add(Lookup(sums, category), n)])
      case _ => Ok(sums)
  }

  /** The loop over the rows, in order; the first failing lookup aborts it. */
  function Accumulate(sums: Sums, rows: seq<Row>, strToNum: string -> Number): (r: Outcome<Sums>)
    ensures r.Err? ==> exists i :: 0 <= i < |rows| && BadRow(rows[i], strToNum) && r.error == GetCategory(rows[i]).error
    ensures r.Ok? ==> sums.Keys <= r.value.Keys <= sums.Keys + BUCKETS
    decreases |rows|
  {
    if |rows| == 0 then Ok(sums)
    else
      assert forall i :: 1 <= i < |rows| ==> rows[1..][i - 1] == rows[i];
      var next :- Step(sums, rows[0], strToNum);
      Accumulate(next, rows[1..], strToNum)
  }

  /** `Object.keys(sums).forEach(k => sums[k] = Math.abs(sums[k]))`. */
  function AbsAll(sums: Sums): (r: Sums)
    ensures r.Keys == sums.Keys
    ensures forall k :: k in r ==> r[k] == Abs(sums[k])
  {
    map k | k in sums :: Abs(sums[k])
  }

  /** `sumByCategory()`, decorated. */
  function SumByCategory(categories: seq<string>, rows: seq<Row>, strToNum: string -> Number): (r: Outcome<Sums>)
    ensures r.Ok? ==> (set k | k in categories) <= r.value.Keys <= (set k | k in categories) + BUCKETS
    ensures r.Ok? ==> forall k :: k in r.value ==> r.value[k].NaN? || r.value[k].n >= 0
    ensures r.Err? ==> r.error.JsError? && r.error.kind == AppError("sumByCategory")
  {
    Decorate("sumByCategory",
      var sums :- Accumulate(InitializeZero(categories), rows, strToNum);
      Ok(AbsAll(sums)))
  }

  // ---------------------------------------------------------------------------
  // Reference definitions

  /** The amount `row` adds to bucket `key`, negated: |amount| for a counted spending row. */
  function Spent(row: Row, key: string, strToNum: string -> Number): (r: int)
    ensures r >= 0
  {
    if Processed(row, strToNum) && GetCategory(row) == Ok(key) && Field(row, AMOUNT).Num? then
      -Field(row, AMOUNT).n
    else 0
  }

  /** The total of `Spent` over the rows. */
  function TotalSpent(rows: seq<Row>, key: string, strToNum: string -> Number): (r: int)
    ensures r >= 0
  {
    if |rows| == 0 then 0 else Spent(rows[0], key, strToNum) + TotalSpent(rows[1..], key, strToNum)
  }

  /** A row whose category lookup is reached and fails. */
  predicate BadRow(row: Row, strToNum: string -> Number) {
    Processed(row, strToNum) && GetCategory(row).Err?
  }

  /** The first row that aborts the loop, if any. */
  function FirstBadRow(rows: seq<Row>, strToNum: string -> Number): (r: Option<nat>)
    ensures r.Some? ==> (
      && r.value < |rows| && BadRow(rows[r.value], strToNum)
      && forall j :: 0 <= j < r.value ==> !BadRow(rows[j], strToNum))
    ensures r.None? ==> forall j :: 0 <= j < |rows| ==> !BadRow(rows[j], strToNum)
  {
    if |rows| == 0 then None
    else if BadRow(rows[0], strToNum) then Some(0)
    else
      match FirstBadRow(rows[1..], strToNum)
      case None => None
      case Some(i) => Some(i + 1)
  }

  /** Row `row` adds its amount to bucket `key`. */
  predicate HitsBucket(row: Row, key: string, strToNum: string -> Number) {
    Processed(row, strToNum) && GetCategory(row) == Ok(key) && Field(row, AMOUNT).Num?
  }

  /** The buckets some row adds an amount to. */
  function HitBuckets(rows: seq<Row>, strToNum: string -> Number): (r: set<string>)
    ensures r <= BUCKETS
    ensures forall i, k :: 0 <= i < |rows| && HitsBucket(rows[i], k, strToNum) ==> k in r
    ensures forall k :: k in r ==> exists i :: 0 <= i < |rows| && HitsBucket(rows[i], k, strToNum)
    decreases |rows|
  {
    if |rows| == 0 then {}
    else
      var rest := HitBuckets(rows[1..], strToNum);
      assert forall i :: 1 <= i < |rows| ==> rows[1..][i - 1] == rows[i];
      var here := GetCategory(rows[0]);
      if Processed(rows[0], strToNum) && here.Ok? && Field(rows[0], AMOUNT).Num? then {here.value} + rest else rest
  }

  // ---------------------------------------------------------------------------
  // Properties of the loop

  /** The loop fails exactly at the first bad row, with that row's own error and no partial result. */
  lemma {:induction false} AccumulateFailsAtFirstBadRow(sums: Sums, rows: seq<Row>, strToNum: string -> Number)
    ensures Accumulate(sums, rows, strToNum).Err? <==> FirstBadRow(rows, strToNum).Some?
    ensures FirstBadRow(rows, strToNum).Some? ==>
      Accumulate(sums, rows, strToNum).error == GetCategory(rows[FirstBadRow(rows, strToNum).value]).error
    decreases |rows|
  {
    if |rows| > 0 {
      var step := Step(sums, rows[0], strToNum);
      if step.Ok? {
        AccumulateFailsAtFirstBadRow(step.value, rows[1..], strToNum);
      }
    }
  }

  /** A key that starts finite ends at its start value minus the bucket's spending. */
  lemma {:induction false} AccumulateTotals(sums: Sums, rows: seq<Row>, key: string, strToNum: string -> Number)
    requires Accumulate(sums, rows, strToNum).Ok?
    requires key in sums && sums[key].Finite?
    ensures key in Accumulate(sums, rows, strToNum).value
    ensures Accumulate(sums, rows, strToNum).value[key] == Finite(sums[key].n - TotalSpent(rows, key, strToNum))
    decreases |rows|
  {
    if |rows| > 0 {
      var next := Step(sums, rows[0], strToNum).value;
      assert key in next && next[key] == Finite(sums[key].n - Spent(rows[0], key, strToNum));
      AccumulateTotals(next, rows[1..], key, strToNum);
    }
  }

  // ---------------------------------------------------------------------------
  // Properties of sumByCategory

  /**
   * With all four bucket names whitelisted, the result has exactly the
   * whitelist's keys, and each holds the bucket's total spending (zero for a
   * key that is no bucket).
   */
  lemma SumsAreBucketTotals(categories: seq<string>, rows: seq<Row>, strToNum: string -> Number)
    requires BUCKETS <= set k | k in categories
    requires FirstBadRow(rows, strToNum).None?
    ensures SumByCategory(categories, rows, strToNum).Ok?
    ensures SumByCategory(categories, rows, strToNum).value.Keys == set k | k in categories
    ensures forall k :: k in SumByCategory(categories, rows, strToNum).value ==>
      SumByCategory(categories, rows, strToNum).value[k] == Finite(TotalSpent(rows, k, strToNum))
  {
    var init := InitializeZero(categories);
    AccumulateFailsAtFirstBadRow(init, rows, strToNum);
    var acc := Accumulate(init, rows, strToNum).value;
    forall k | k in acc ensures Abs(acc[k]) == Finite(TotalSpent(rows, k, strToNum)) {
      AccumulateTotals(init, rows, k, strToNum);
    }
  }

  /**
   * The loop adds exactly the buckets the rows hit, and a key that starts
   * missing or `NaN` ends `NaN`.
   */
  lemma {:induction false} AccumulateHitKeys(sums: Sums, rows: seq<Row>, strToNum: string -> Number)
    requires Accumulate(sums, rows, strToNum).Ok?
    ensures Accumulate(sums, rows, strToNum).value.Keys == sums.Keys + HitBuckets(rows, strToNum)
    ensures forall k :: k in Accumulate(sums, rows, strToNum).value && (k !in sums || sums[k] == NaN) ==>
      Accumulate(sums, rows, strToNum).value[k] == NaN
    decreases |rows|
  {
    if |rows| > 0 {
      var next := Step(sums, rows[0], strToNum).value;
      AccumulateHitKeys(next, rows[1..], strToNum);
    }
  }

  /**
   * Without a bad row, the result's keys are the whitelist plus the buckets
   * the rows hit; a hit bucket outside the whitelist is `NaN`, and every
   * whitelisted key holds its total spending.
   */
  lemma SumKeysAreWhitelistAndHits(categories: seq<string>, rows: seq<Row>, strToNum: string -> Number)
    requires FirstBadRow(rows, strToNum).None?
    ensures SumByCategory(categories, rows, strToNum).Ok?
    ensures SumByCategory(categories, rows, strToNum).value.Keys == (set k | k in categories) + HitBuckets(rows, strToNum)
    ensures forall k :: k in HitBuckets(rows, strToNum) && k !in categories ==>
      SumByCategory(categories, rows, strToNum).value[k] == NaN
    ensures forall k :: k in categories ==>
      SumByCategory(categories, rows, strToNum).value[k] == Finite(TotalSpent(rows, k, strToNum))
  {
    var init := InitializeZero(categories);
    AccumulateFailsAtFirstBadRow(init, rows, strToNum);
    AccumulateHitKeys(init, rows, strToNum);
    var acc := Accumulate(init, rows, strToNum).value;
    forall k | k in categories ensures Abs(acc[k]) == Finite(TotalSpent(rows, k, strToNum)) {
      AccumulateTotals(init, rows, k, strToNum);
    }
  }

  /** A bad row aborts the whole computation with its message under `sumByCategory`. */
  lemma BadRowAborts(categories: seq<string>, rows: seq<Row>, strToNum: string -> Number)
    requires FirstBadRow(rows, strToNum).Some?
    ensures var bad := rows[FirstBadRow(rows, strToNum).value];
      SumByCategory(categories, rows, strToNum) ==
        Err(JsError(AppError("sumByCategory"), GetCategory(bad).error.message))
  {
    AccumulateFailsAtFirstBadRow(InitializeZero(categories), rows, strToNum);
  }

  /** Success needs no bad row. */
  lemma SuccessIffNoBadRow(categories: seq<string>, rows: seq<Row>, strToNum: string -> Number)
    ensures SumByCategory(categories, rows, strToNum).Ok? <==> FirstBadRow(rows, strToNum).None?
  {
    AccumulateFailsAtFirstBadRow(InitializeZero(categories), rows, strToNum);
  }

  /**
   * A zero amount is not skipped: with a sub-category that starts with no
   * digit 1-4 it aborts the computation, while a positive amount is skipped.
   */
  lemma ZeroAmountIsCategorised(strToNum: string -> Number)
    ensures var zero := map[COUNTED := Bool(true), AMOUNT := Num(0), SUB_CATEGORY := Str("食費")];
      SumByCategory([], [zero], strToNum) == Err(JsError(AppError("sumByCategory"), "invalid category format: 食費"))
    ensures var income := map[COUNTED := Bool(true), AMOUNT := Num(500), SUB_CATEGORY := Str("食費")];
      SumByCategory([], [income], strToNum) == Ok(map[])
  {
    var zero := map[COUNTED := Bool(true), AMOUNT := Num(0), SUB_CATEGORY := Str("食費")];
    assert Field(zero, SUB_CATEGORY) == Str("食費");
    assert Field(zero, COUNTED) == Bool(true) && Field(zero, AMOUNT) == Num(0);
    assert BucketOfDigit("食費"[0]).None?;
    assert "invalid category format: " + "食費" == "invalid category format: 食費";
    assert GetCategory(zero) == Throw("invalid category format: 食費");
    assert BadRow(zero, strToNum);
    assert FirstBadRow([zero], strToNum) == Some(0);
    BadRowAborts([], [zero], strToNum);
    var income := map[COUNTED := Bool(true), AMOUNT := Num(500), SUB_CATEGORY := Str("食費")];
    assert Field(income, AMOUNT) == Num(500);
    assert !Processed(income, strToNum);
    assert InitializeZero([]) == map[];
    assert Accumulate(map[], [income], strToNum) == Accumulate(map[], [], strToNum);
    assert AbsAll(map[]) == map[];
  }

  /** A bucket missing from the whitelist appears as a NaN key. */
  lemma MissingBucketIsNaN(strToNum: string -> Number)
    ensures var row := map[COUNTED := Bool(true), AMOUNT := Num(-1200), SUB_CATEGORY := Str("2-食費")];
      SumByCategory([REG_FIXED_COST], [row], strToNum) == Ok(map[REG_FIXED_COST := Finite(0), REG_VAR_COST := NaN])
  {
    var row := map[COUNTED := Bool(true), AMOUNT := Num(-1200), SUB_CATEGORY := Str("2-食費")];
    assert GetCategory(row) == Ok(REG_VAR_COST);
    var init := InitializeZero([REG_FIXED_COST]);
    assert init == map[REG_FIXED_COST := Finite(0)];
    assert Accumulate(init, [row], strToNum) == Ok(map[REG_FIXED_COST := Finite(0), REG_VAR_COST := NaN]);
    assert AbsAll(map[REG_FIXED_COST := Finite(0), REG_VAR_COST := NaN]) == map[REG_FIXED_COST := Finite(0), REG_VAR_COST := NaN];
  }
}
