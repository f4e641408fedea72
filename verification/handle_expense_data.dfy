/**
 * `HandleExpenseData.extract`: converts the CSV text to rows and derives the
 * month of the statement from the first row's date as "YYYY-MM".
 */
module HandleExpenseData {
  import opened Base
  import opened Js
  import opened BackErrors
  import opened CsvToJson
  import Text

  /**
   * Where `/(\d{4})\/(\d{2})\/\d{2}/` matches `s` at position `i`: four
   * digits, '/', two digits, '/', two digits. Nothing bounds the month or
   * day, and nothing anchors the match.
   */
  predicate DateAt(s: string, i: nat) {
    && i + 10 <= |s|
    && Text.IsDigit(s[i]) && Text.IsDigit(s[i + 1]) && Text.IsDigit(s[i + 2]) && Text.IsDigit(s[i + 3])
    && s[i + 4] == '/'
    && Text.IsDigit(s[i + 5]) && Text.IsDigit(s[i + 6])
    && s[i + 7] == '/'
    && Text.IsDigit(s[i + 8]) && Text.IsDigit(s[i + 9])
  }

  /** The leftmost match at or after `from`, as `String.prototype.match` finds it. */
  function FirstDateAt(s: string, from: nat): (r: Option<nat>)
    ensures r.Some? ==> from <= r.value && DateAt(s, r.value) && forall j :: from <= j < r.value ==> !DateAt(s, j)
    ensures r.None? ==> forall j :: from <= j ==> !DateAt(s, j)
    decreases |s| - from
  {
    if from + 10 > |s| then None
    else if DateAt(s, from) then Some(from)
    else FirstDateAt(s, from + 1)
  }

  /** `${match[1]}-${match[2]}` for the match at `i`. */
  function MonthAt(s: string, i: nat): (m: string)
    requires DateAt(s, i)
    ensures |m| == 7 && m[4] == '-'
    ensures forall k :: 0 <= k < 7 && k != 4 ==> Text.IsDigit(m[k])
  {
    s[i..i + 4] + "-" + s[i + 5..i + 7]
  }

  /**
   * `extractExpenseMonth`: an empty array and a date without a match are
   * errors; a date cell that is not a string makes `.match` throw a
   * `TypeError`.
   */
  function ExtractExpenseMonth(rows: seq<Row>): (r: Outcome<string>)
    ensures |rows| == 0 ==> r == Throw(EXPENSE_DATA_ARRAY_EMPTY)
    ensures |rows| > 0 && !Field(rows[0], DATE).Str? ==>
      r == Err(JsError(TypeError, MethodOnNonString(Field(rows[0], DATE), "match")))
    ensures r.Ok? ==> (
      && |rows| > 0 && Field(rows[0], DATE).Str?
      && var s := Field(rows[0], DATE).s;
         exists i: nat :: DateAt(s, i) && r.value == MonthAt(s, i) && forall j :: 0 <= j < i ==> !DateAt(s, j))
  {
    if |rows| == 0 then Throw(EXPENSE_DATA_ARRAY_EMPTY)
    else
      match Field(rows[0], DATE)
      case Str(s) =>
        (match FirstDateAt(s, 0)
         case None => Throw(INVALID_DATE_FORMAT)
         case Some(i) => Ok(MonthAt(s, i)))
      case v => Err(JsError(TypeError, MethodOnNonString(v, "match")))
  }

  /** A string date yields a month exactly when the pattern occurs somewhere in it. */
  lemma MonthFoundIffDateOccurs(rows: seq<Row>)
    requires |rows| > 0 && Field(rows[0], DATE).Str?
    ensures ExtractExpenseMonth(rows).Ok? <==> exists i: nat :: DateAt(Field(rows[0], DATE).s, i)
    ensures ExtractExpenseMonth(rows).Err? ==> ExtractExpenseMonth(rows) == Throw(INVALID_DATE_FORMAT)
  {
  }

  /** Only the first row is consulted. */
  lemma MonthDependsOnFirstRowOnly(rows: seq<Row>, others: seq<Row>)
    requires |rows| > 0 && |others| > 0 && rows[0] == others[0]
    ensures ExtractExpenseMonth(rows) == ExtractExpenseMonth(others)
  {
  }

  /** A date written "YYYY/MM/DD" gives "YYYY-MM". */
  lemma MonthOfPlainDate()
    ensures ExtractExpenseMonth([map[DATE := Str("2024/06/15")]]) == Ok("2024-06")
  {
    var a := "2024/06/15";
    assert DateAt(a, 0);
    assert MonthAt(a, 0) == "2024-06";
  }

  /** The match is unanchored and unchecked: surrounding text and month 13 pass through. */
  lemma MonthUnanchoredUnchecked()
    ensures ExtractExpenseMonth([map[DATE := Str("on 2024/13/45 at noon")]]) == Ok("2024-13")
  {
    var b := "on 2024/13/45 at noon";
    assert DateAt(b, 3);
    assert !DateAt(b, 2);
    assert FirstDateAt(b, 2) == Some(3);
    assert !DateAt(b, 1);
    assert FirstDateAt(b, 1) == Some(3);
    assert !DateAt(b, 0);
    assert FirstDateAt(b, 0) == Some(3);
    assert MonthAt(b, 3) == "2024-13";
  }

  /**
   * Hyphenated and numeric dates are rejected, the latter by a `TypeError`,
   * and so is a first row without a date.
   */
  lemma MonthRejects()
    ensures ExtractExpenseMonth([map[DATE := Str("2024-06-15")]]) == Throw(INVALID_DATE_FORMAT)
    ensures ExtractExpenseMonth([map[DATE := Num(20240615)]]) == Err(JsError(TypeError, NotAFunction("match")))
    ensures ExtractExpenseMonth([map[]]) == Err(JsError(TypeError, ReadOfUndefined("match")))
  {
    var c := "2024-06-15";
    assert !DateAt(c, 0);
    assert FirstDateAt(c, 0) == None;
  }

  /** `extract()`, decorated: the converted rows, unchanged, with the month of the first. */
  function Extract(parse: string -> ParseOutput, csv: string): (r: Outcome<(seq<Row>, string)>)
    ensures r.Ok? <==> Convert(parse, csv).Ok? && ExtractExpenseMonth(Convert(parse, csv).value).Ok?
    ensures r.Ok? ==> r.value == (Convert(parse, csv).value, ExtractExpenseMonth(Convert(parse, csv).value).value)
    ensures r.Err? ==> r.error.JsError? && r.error.kind == AppError("extract")
  {
    Decorate("extract",
      var rows :- Convert(parse, csv);
      var month :- ExtractExpenseMonth(rows);
      Ok((rows, month)))
  }

  /**
   * A parse failure surfaces from `extract` with the parser's message; the
   * inner `convert` name is replaced by `extract`.
   */
  lemma ParseFailureRenamed(parse: string -> ParseOutput, csv: string)
    requires parse(csv).errorCount > 0
    ensures Extract(parse, csv) == Err(JsError(AppError("extract"), "Errors while parsing:" + parse(csv).json))
  {
  }
}
