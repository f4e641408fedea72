/**
 * The CSV import dialog: which dropped files are CSV, how a file's text is
 * checked line by line into rows and messages, how the accepted rows become
 * a category-to-subcategories record for the category store, and how many
 * messages and rows are shown. Reading the file and `Number.parseFloat` are
 * parameters; notifications and timers are not modelled.
 */
module CsvUploadModal {
  import opened Base
  import opened Text
  import ExpenseContext

  // ---------------------------------------------------------------------
  // handleDrop

  /** A dropped `File`: its name and MIME type. */
  datatype DroppedFile = DroppedFile(name: string, mimeType: string)

  predicate IsCsv(f: DroppedFile) {
    f.mimeType == "text/csv" || EndsWith(f.name, ".csv")
  }

  lemma {:induction false} FilterSplits<T>(s: seq<T>, p: T -> bool, q: T -> bool)
    requires forall x :: q(x) == !p(x)
    ensures |Filter(s, p)| + |Filter(s, q)| == |s|
    decreases |s|
  {
    if |s| > 0 {
      FilterSplits(s[1..], p, q);
    }
  }

  /** What a drop leads to: the message shown when there is no CSV file, or the CSV files to process in order. */
  datatype DropOutcome = NoCsv(errors: seq<string>) | Process(files: seq<DroppedFile>)

  const NO_CSV_MESSAGE: string := "CSVファイルを選択してください。"

  /**
   * `handleDrop`: the files split into CSV and non-CSV, every file on
   * exactly one side; without a CSV file the only message asks for one.
   */
  function HandleDrop(files: seq<DroppedFile>): (r: (DropOutcome, seq<DroppedFile>))
    ensures var (outcome, nonCsv) := r;
      && (forall f :: f in nonCsv <==> f in files && !IsCsv(f))
      && (outcome.Process? ==> |outcome.files| > 0 && forall f :: f in outcome.files <==> f in files && IsCsv(f))
      && (outcome.NoCsv? <==> forall f :: f in files ==> !IsCsv(f))
      && (outcome.NoCsv? ==> outcome.errors == [NO_CSV_MESSAGE])
      && (outcome.Process? ==> |outcome.files| + |nonCsv| == |files|)
  {
    var csv := Filter(files, IsCsv);
    var nonCsv := Filter(files, (f: DroppedFile) => !IsCsv(f));
    FilterSplits(files, IsCsv, (f: DroppedFile) => !IsCsv(f));
    assert |csv| > 0 ==> csv[0] in csv;
    (if |csv| == 0 then NoCsv([NO_CSV_MESSAGE]) else Process(csv), nonCsv)
  }

  // ---------------------------------------------------------------------
  // processCsvFile

  /** A validated row: the amount is the parsed (positive) number. */
  datatype CsvRow = CsvRow(date: string, category: string, subcategory: string, amount: int, description: string)

  const EXPECTED_HEADERS: seq<string> := ["date", "category", "subcategory", "amount", "description"]

  /** `Number.parseFloat`: `None` for NaN. */
  type ParseFloat = string -> Option<int>

  /** `v.trim().replace(/"/g, "")`. */
  function Clean(cell: string): string {
    RemoveAll(Trim(cell), '"')
  }

  /** A line split on ',' into cleaned cells. */
  function Cells(line: string): (r: seq<string>)
    ensures |r| == |Split(line, ',')| && |r| > 0
    ensures forall k :: 0 <= k < |r| ==> '"' !in r[k]
  {
    var parts := Split(line, ',');
    seq(|parts|, k requires 0 <= k < |parts| => Clean(parts[k]))
  }

  /** `text.split("\n").filter((line) => line.trim())`. */
  function NonBlankLines(text: string): (r: seq<string>)
    ensures forall l :: l in r ==> Trim(l) != ""
  {
    Filter(Split(text, '\n'), (l: string) => Trim(l) != "")
  }

  /** `expected.filter((h) => !headers.includes(h))`. */
  function MissingFrom(expected: seq<string>, headers: seq<string>): (r: seq<string>)
    ensures forall h :: h in r <==> h in expected && h !in headers
  {
    if |expected| == 0 then []
    else (if expected[0] in headers then [] else [expected[0]]) + MissingFrom(expected[1..], headers)
  }

  /** The expected headers the header line lacks. */
  function MissingHeaders(headers: seq<string>): (r: seq<string>)
    ensures forall h :: h in r <==> h in EXPECTED_HEADERS && h !in headers
  {
    MissingFrom(EXPECTED_HEADERS, headers)
  }

  /** The missing headers, written out in their fixed order. */
  function MissingInOrder(headers: seq<string>): seq<string> {
    (if "date" in headers then [] else ["date"])
    + ((if "category" in headers then [] else ["category"])
    + ((if "subcategory" in headers then [] else ["subcategory"])
    + ((if "amount" in headers then [] else ["amount"])
    + (if "description" in headers then [] else ["description"]))))
  }

  /** The missing headers are listed in the order date, category, subcategory, amount, description. */
  lemma MissingHeadersOrder(headers: seq<string>)
    ensures MissingHeaders(headers) == MissingInOrder(headers)
  {
    var e := EXPECTED_HEADERS;
    assert e[1..] == ["category", "subcategory", "amount", "description"];
    assert e[1..][1..] == ["subcategory", "amount", "description"];
    assert e[1..][1..][1..] == ["amount", "description"];
    assert e[1..][1..][1..][1..] == ["description"];
    assert e[1..][1..][1..][1..][1..] == [];
    var d := if "description" in headers then [] else ["description"];
    var a := if "amount" in headers then [] else ["amount"];
    var sc := if "subcategory" in headers then [] else ["subcategory"];
    var c := if "category" in headers then [] else ["category"];
    assert MissingFrom(e[1..][1..][1..][1..], headers) == d + [];
    assert MissingFrom(e[1..][1..][1..], headers) == a + (d + []);
    assert MissingFrom(e[1..][1..], headers) == sc + (a + (d + []));
    assert MissingFrom(e[1..], headers) == c + (sc + (a + (d + [])));
    assert d + [] == d;
  }

  /**
   * `row[header]` after `headers.forEach((header, index) => row[header] =
   * values[index])`: the value of the last column with that header.
   */
  function Field(headers: seq<string>, values: seq<string>, name: string): (r: Option<string>)
    requires |headers| == |values|
    ensures r.Some? <==> name in headers
    ensures r.Some? ==> exists j :: (0 <= j < |headers| && headers[j] == name && values[j] == r.value
      && forall k :: j < k < |headers| ==> headers[k] != name)
    decreases |headers|
  {
    if |headers| == 0 then None
    else if headers[|headers| - 1] == name then Some(values[|values| - 1])
    else
      var r := Field(headers[..|headers| - 1], values[..|values| - 1], name);
      assert name in headers[..|headers| - 1] <==> name in headers by {
        assert headers == headers[..|headers| - 1] + [headers[|headers| - 1]];
      }
      r
  }

  /** JavaScript truthiness of a looked-up cell: present and non-empty. */
  predicate Filled(v: Option<string>) {
    v.Some? && v.value != ""
  }

  /** `mainCategories.some((cat) => cat.name === c || cat.id === c)`. */
  predicate CategoryExists(cats: ExpenseContext.Categories, c: string) {
    exists i :: 0 <= i < |cats| && (cats[i].name == c || cats[i].id == c)
  }

  /** "行 n: " for the line at index `i` of the non-blank lines. */
  function LinePrefix(i: nat): string {
    "行 " + NatToString(i + 1) + ": "
  }

  /**
   * The cells pass every check after the width check: a truthy date,
   * category and amount, an amount that parses to a positive number, and a
   * category some main category has as its name or id.
   */
  predicate CellsAccepted(headers: seq<string>, values: seq<string>, cats: ExpenseContext.Categories, parse: ParseFloat)
    requires |headers| == |values|
  {
    && Filled(Field(headers, values, "date"))
    && Filled(Field(headers, values, "category"))
    && Filled(Field(headers, values, "amount"))
    && parse(Field(headers, values, "amount").value).Some?
    && parse(Field(headers, values, "amount").value).value > 0
    && CategoryExists(cats, Field(headers, values, "category").value)
  }

  /** A data line passes every check: as many cells as headers, and the cells' checks. */
  predicate LineAccepted(line: string, headers: seq<string>, cats: ExpenseContext.Categories, parse: ParseFloat) {
    |Cells(line)| == |headers| && CellsAccepted(headers, Cells(line), cats, parse)
  }

  /** The row the cells make: the cell under each header, with "" for a missing subcategory or description. */
  function RowOf(headers: seq<string>, values: seq<string>, amount: int): CsvRow
    requires |headers| == |values| && "date" in headers && "category" in headers
  {
    CsvRow(Field(headers, values, "date").value, Field(headers, values, "category").value,
           Field(headers, values, "subcategory").GetOr(""), amount,
           Field(headers, values, "description").GetOr(""))
  }

  /** The checks after the width check, with the message `prefix` heads. */
  function CheckCells(prefix: string, headers: seq<string>, values: seq<string>, cats: ExpenseContext.Categories,
                      parse: ParseFloat): (r: Result<CsvRow, string>)
    requires |headers| == |values|
    ensures r.Err? ==> exists rest :: r.error == prefix + rest
    ensures r.Ok? <==> CellsAccepted(headers, values, cats, parse)
    ensures r.Ok? ==> r.value == RowOf(headers, values, parse(Field(headers, values, "amount").value).value)
  {
    var date := Field(headers, values, "date");
    var category := Field(headers, values, "category");
    var amountText := Field(headers, values, "amount");
    if !Filled(date) || !Filled(category) || !Filled(amountText) then Err(prefix + "必須項目が不足しています")
    else
      match parse(amountText.value)
      case None => Err(prefix + "金額が無効です")
      case Some(amount) =>
        if amount <= 0 then Err(prefix + "金額が無効です")
        else if !CategoryExists(cats, category.value) then Err(prefix + ("無効なカテゴリです (" + category.value + ")"))
        else Ok(RowOf(headers, values, amount))
  }

  /**
   * The check of the data line at index `i`: a row exactly when the line
   * passes every check, built from the cells under each header with ""
   * for a missing subcategory or description; otherwise the message for the
   * first check it fails.
   */
  function CheckLine(i: nat, line: string, headers: seq<string>, cats: ExpenseContext.Categories, parse: ParseFloat)
    : (r: Result<CsvRow, string>)
    ensures r.Err? ==> StartsWith(r.error, LinePrefix(i))
    ensures r.Ok? <==> LineAccepted(line, headers, cats, parse)
    ensures |Cells(line)| != |headers| ==> r == Err(LinePrefix(i) + "列数が一致しません")
    ensures r.Ok? ==> (
      && r.value.date != "" && r.value.category != "" && r.value.amount > 0
      && CategoryExists(cats, r.value.category)
      && |Cells(line)| == |headers|
      && var values := Cells(line);
         && parse(Field(headers, values, "amount").value) == Some(r.value.amount)
         && r.value == CsvRow(Field(headers, values, "date").value, Field(headers, values, "category").value,
                              Field(headers, values, "subcategory").GetOr(""), r.value.amount,
                              Field(headers, values, "description").GetOr("")))
  {
    var values := Cells(line);
    var prefix := LinePrefix(i);
    if |values| != |headers| then Err(prefix + "列数が一致しません")
    else CheckCells(prefix, headers, values, cats, parse)
  }

  /** The accepted rows, in order. */
  function Rows(rs: seq<Result<CsvRow, string>>): (r: seq<CsvRow>)
    ensures forall x :: x in r <==> Ok(x) in rs
    ensures |r| <= |rs|
    decreases |rs|
  {
    if |rs| == 0 then []
    else
      assert forall x :: Ok(x) in rs <==> rs[0] == Ok(x) || Ok(x) in rs[1..];
      (if rs[0].Ok? then [rs[0].value] else []) + Rows(rs[1..])
  }

  /** The messages, in order. */
  function Errors(rs: seq<Result<CsvRow, string>>): (r: seq<string>)
    ensures forall x :: x in r <==> Err(x) in rs
    ensures |r| <= |rs|
    decreases |rs|
  {
    if |rs| == 0 then []
    else
      assert forall x :: Err(x) in rs <==> rs[0] == Err(x) || Err(x) in rs[1..];
      (if rs[0].Err? then [rs[0].error] else []) + Errors(rs[1..])
  }

  /** Every checked line gives exactly one row or one message. */
  lemma {:induction false} RowsAndErrorsPartition(rs: seq<Result<CsvRow, string>>)
    ensures |Rows(rs)| + |Errors(rs)| == |rs|
    decreases |rs|
  {
    if |rs| > 0 {
      RowsAndErrorsPartition(rs[1..]);
    }
  }

  /** What `processCsvFile` leaves: a single message and no preview, or the rows and messages of the preview. */
  datatype Outcome = Rejected(errors: seq<string>) | Parsed(rows: seq<CsvRow>, errors: seq<string>)

  /** The checks of all data lines (the lines after the header), in order. */
  function CheckLines(lines: seq<string>, headers: seq<string>, cats: ExpenseContext.Categories, parse: ParseFloat)
    : (r: seq<Result<CsvRow, string>>)
    requires |lines| >= 1
    ensures |r| == |lines| - 1
    ensures forall k :: 0 <= k < |r| ==> r[k] == CheckLine(k + 1, lines[k + 1], headers, cats, parse)
  {
    seq(|lines| - 1, k requires 0 <= k < |lines| - 1 => CheckLine(k + 1, lines[k + 1], headers, cats, parse))
  }

  /** The line checks of a text with at least two non-blank lines, against its own header line. */
  function ParsedLines(text: string, cats: ExpenseContext.Categories, parse: ParseFloat): seq<Result<CsvRow, string>>
    requires |NonBlankLines(text)| >= 2
  {
    var lines := NonBlankLines(text);
    CheckLines(lines, Cells(lines[0]), cats, parse)
  }

  /**
   * `processCsvFile(file)`. `text` is what `file.text()` produced (`None`
   * when it failed).
   */
  function ProcessCsvFile(fileName: string, text: Option<string>, cats: ExpenseContext.Categories, parse: ParseFloat)
    : (r: Outcome)
    ensures r.Rejected? ==> |r.errors| == 1
    ensures text.None? ==> r == Rejected([fileName + ": ファイルの読み込みに失敗しました。"])
    ensures text.Some? && |NonBlankLines(text.value)| < 2 ==>
      r == Rejected([fileName + ": CSVファイルにデータが含まれていません。"])
    ensures r.Parsed? ==> (text.Some? && |NonBlankLines(text.value)| >= 2
      && r == Parsed(Rows(ParsedLines(text.value, cats, parse)), Errors(ParsedLines(text.value, cats, parse))))
  {
    match text
    case None => Rejected([fileName + ": ファイルの読み込みに失敗しました。"])
    case Some(t) =>
      var lines := NonBlankLines(t);
      if |lines| < 2 then Rejected([fileName + ": CSVファイルにデータが含まれていません。"])
      else
        var headers := Cells(lines[0]);
        var missing := MissingHeaders(headers);
        if |missing| > 0 then
          Rejected([fileName + ": 必要な列が不足しています: " + Join(missing, ", ")])
        else
          var checked := CheckLines(lines, headers, cats, parse);
          Parsed(Rows(checked), Errors(checked))
  }

  /**
   * The preview appears exactly when the text has a header line with every
   * expected column and at least one more line; then every data line gives
   * exactly one row or one message, and every row is complete, positive and
   * of a known category.
   */
  lemma ProcessCsvFileParsed(fileName: string, text: Option<string>, cats: ExpenseContext.Categories, parse: ParseFloat)
    ensures var r := ProcessCsvFile(fileName, text, cats, parse);
      r.Parsed? <==> (text.Some? && |NonBlankLines(text.value)| >= 2
        && forall h :: h in EXPECTED_HEADERS ==> h in Cells(NonBlankLines(text.value)[0]))
    ensures var r := ProcessCsvFile(fileName, text, cats, parse);
      r.Parsed? ==> |r.rows| + |r.errors| == |NonBlankLines(text.value)| - 1
    ensures var r := ProcessCsvFile(fileName, text, cats, parse);
      r.Parsed? ==> forall row :: row in r.rows ==>
        row.date != "" && row.category != "" && row.amount > 0 && CategoryExists(cats, row.category)
  {
    if text.Some? && |NonBlankLines(text.value)| >= 2 {
      var lines := NonBlankLines(text.value);
      var headers := Cells(lines[0]);
      var missing := MissingHeaders(headers);
      assert |missing| > 0 ==> missing[0] in missing;
      if forall h :: h in EXPECTED_HEADERS ==> h in headers {
        assert |missing| == 0;
        var checked := ParsedLines(text.value, cats, parse);
        RowsAndErrorsPartition(checked);
      }
    }
  }

  // ---------------------------------------------------------------------
  // handleImport

  /** `categorySubcategoryMap` as its entries in insertion order. */
  type Index = seq<(string, seq<string>)>

  /** Whether the index lists `sub` under `category`. */
  predicate Lists(idx: Index, category: string, sub: string) {
    exists i :: 0 <= i < |idx| && idx[i].0 == category && sub in idx[i].1
  }

  /** No category twice, and no subcategory twice in one list. */
  predicate WellFormedIndex(idx: Index) {
    && (forall i, j :: 0 <= i < j < |idx| ==> idx[i].0 != idx[j].0)
    && (forall i :: 0 <= i < |idx| ==> Distinct(idx[i].1))
  }

  /** A row contributes when both its category and subcategory are non-empty. */
  predicate Contributes(row: CsvRow) {
    row.category != "" && row.subcategory != ""
  }

  /** One iteration of the loop in `handleImport`. */
  function AddRow(idx: Index, row: CsvRow): (r: Index)
    ensures !Contributes(row) ==> r == idx
    ensures |idx| <= |r| <= |idx| + 1
    ensures forall i :: 0 <= i < |idx| ==>
      r[i].0 == idx[i].0 && |idx[i].1| <= |r[i].1| && r[i].1[..|idx[i].1|] == idx[i].1
    ensures |r| == |idx| + 1 ==> r[|idx|] == (row.category, [row.subcategory])
  {
    if !Contributes(row) then idx
    else
      match FindIndex(idx, (e: (string, seq<string>)) => e.0 == row.category)
      case None => idx + [(row.category, [row.subcategory])]
      case Some(i) =>
        if row.subcategory in idx[i].1 then idx
        else idx[i := (idx[i].0, idx[i].1 + [row.subcategory])]
  }

  /** `Object.values(map).reduce((sum, subs) => sum + subs.length, 0)`. */
  function Total(idx: Index): nat {
    if |idx| == 0 then 0 else |idx[0].1| + Total(idx[1..])
  }

  lemma {:induction false} TotalAppend(idx: Index, e: (string, seq<string>))
    ensures Total(idx + [e]) == Total(idx) + |e.1|
    decreases |idx|
  {
    if |idx| > 0 {
      assert (idx + [e])[1..] == idx[1..] + [e];
      TotalAppend(idx[1..], e);
    }
  }

  lemma {:induction false} TotalUpdate(idx: Index, i: nat, e: (string, seq<string>))
    requires i < |idx|
    ensures Total(idx[i := e]) == Total(idx) - |idx[i].1| + |e.1|
    decreases |idx|
  {
    if i > 0 {
      assert idx[i := e][1..] == idx[1..][i - 1 := e];
      TotalUpdate(idx[1..], i - 1, e);
    }
  }

  /** The contributing (category, subcategory) pairs, each once, in order of first occurrence. */
  function DistinctPairs(rows: seq<CsvRow>): (r: seq<(string, string)>)
    ensures Distinct(r)
    ensures forall p :: p in r <==> exists k :: 0 <= k < |rows| && Contributes(rows[k]) && p == (rows[k].category, rows[k].subcategory)
    decreases |rows|
  {
    if |rows| == 0 then []
    else
      var prefix := DistinctPairs(rows[..|rows| - 1]);
      var row := rows[|rows| - 1];
      var r := if Contributes(row) && (row.category, row.subcategory) !in prefix then prefix + [(row.category, row.subcategory)] else prefix;
      assert forall k :: 0 <= k < |rows| - 1 ==> rows[..|rows| - 1][k] == rows[k];
      r
  }

  /** Appending a new one-element entry lists exactly one more pair. */
  lemma ListsAppend(idx: Index, category: string, sub: string)
    ensures forall c, s :: Lists(idx + [(category, [sub])], c, s) <==> Lists(idx, c, s) || (c == category && s == sub)
  {
    var r := idx + [(category, [sub])];
    assert r[|idx|] == (category, [sub]);
    forall c, s ensures Lists(r, c, s) <==> Lists(idx, c, s) || (c == category && s == sub) {
      if Lists(r, c, s) {
        var i :| 0 <= i < |r| && r[i].0 == c && s in r[i].1;
        if i < |idx| {
          assert idx[i] == r[i];
        }
      }
      if Lists(idx, c, s) {
        var i :| 0 <= i < |idx| && idx[i].0 == c && s in idx[i].1;
        assert r[i] == idx[i];
      }
    }
  }

  /** Appending a subcategory to entry `i` lists exactly one more pair. */
  lemma ListsExtend(idx: Index, i: nat, sub: string)
    requires i < |idx|
    ensures forall c, s :: Lists(idx[i := (idx[i].0, idx[i].1 + [sub])], c, s) <==> Lists(idx, c, s) || (c == idx[i].0 && s == sub)
  {
    var r := idx[i := (idx[i].0, idx[i].1 + [sub])];
    forall c, s ensures Lists(r, c, s) <==> Lists(idx, c, s) || (c == idx[i].0 && s == sub) {
      if Lists(r, c, s) {
        var j :| 0 <= j < |r| && r[j].0 == c && s in r[j].1;
        if j != i {
          assert idx[j] == r[j];
        }
      }
      if Lists(idx, c, s) {
        var j :| 0 <= j < |idx| && idx[j].0 == c && s in idx[j].1;
        assert s in r[j].1;
      }
      if c == idx[i].0 && s == sub {
        assert s in r[i].1;
      }
    }
  }

  /** One row keeps the index well formed, lists exactly one new pair at most, and counts it. */
  lemma AddRowStep(idx: Index, row: CsvRow)
    requires WellFormedIndex(idx)
    ensures WellFormedIndex(AddRow(idx, row))
    ensures forall c, s :: Lists(AddRow(idx, row), c, s) <==> (Lists(idx, c, s)
      || (Contributes(row) && c == row.category && s == row.subcategory))
    ensures Total(AddRow(idx, row)) == Total(idx)
      + if Contributes(row) && !Lists(idx, row.category, row.subcategory) then 1 else 0
  {
    if Contributes(row) {
      match FindIndex(idx, (e: (string, seq<string>)) => e.0 == row.category)
      case None =>
        TotalAppend(idx, (row.category, [row.subcategory]));
        ListsAppend(idx, row.category, row.subcategory);
      case Some(i) =>
        if row.subcategory !in idx[i].1 {
          var e := (idx[i].0, idx[i].1 + [row.subcategory]);
          TotalUpdate(idx, i, e);
          assert !Lists(idx, row.category, row.subcategory);
          ListsExtend(idx, i, row.subcategory);
        }
    }
  }

  /** The loop of `handleImport` over the rows. */
  function BuildIndex(rows: seq<CsvRow>): (r: Index)
    ensures IndexShape(r)
  {
    assert forall t: Index, row: CsvRow :: IndexShape(t) ==> IndexShape(AddRow(t, row)) by {
      forall t: Index, row: CsvRow | IndexShape(t) ensures IndexShape(AddRow(t, row)) {
        AddRowStep(t, row);
      }
    }
    FoldPreserves(AddRow, IndexShape, [], rows);
    Fold(AddRow, [], rows)
  }

  /** A well-formed index in which every listed category has at least one subcategory. */
  predicate IndexShape(idx: Index) {
    WellFormedIndex(idx) && forall i :: 0 <= i < |idx| ==> |idx[i].1| > 0
  }

  lemma {:induction false} BuildIndexInvariant(rows: seq<CsvRow>)
    ensures WellFormedIndex(BuildIndex(rows))
    ensures forall c, s :: Lists(BuildIndex(rows), c, s) <==> (c, s) in DistinctPairs(rows)
    ensures Total(BuildIndex(rows)) == |DistinctPairs(rows)|
    decreases |rows|
  {
    if |rows| > 0 {
      var front := rows[..|rows| - 1];
      var row := rows[|rows| - 1];
      BuildIndexInvariant(front);
      assert front + [row] == rows;
      FoldAppend(AddRow, [], front, [row]);
      assert Fold(AddRow, BuildIndex(front), [row]) == AddRow(BuildIndex(front), row) by {
        assert [row][1..] == [];
      }
      AddRowStep(BuildIndex(front), row);
    }
  }

  /** The index as the record handed to `addSubCategoriesFromData`. */
  function AsRecord(idx: Index): (m: map<string, seq<string>>)
    ensures forall i :: 0 <= i < |idx| ==> idx[i].0 in m
    ensures forall c :: c in m ==> exists i :: 0 <= i < |idx| && idx[i].0 == c
    ensures WellFormedIndex(idx) ==> forall i :: 0 <= i < |idx| ==> m[idx[i].0] == idx[i].1
    decreases |idx|
  {
    if |idx| == 0 then map[]
    else
      var front := idx[..|idx| - 1];
      assert WellFormedIndex(idx) ==> WellFormedIndex(front);
      AsRecord(front)[idx[|idx| - 1].0 := idx[|idx| - 1].1]
  }

  /** In a well-formed index, the record lists under `c` exactly what the index lists under `c`. */
  lemma RecordIsListed(idx: Index, c: string, s: string)
    requires WellFormedIndex(idx)
    ensures c in AsRecord(idx) && s in AsRecord(idx)[c] <==> Lists(idx, c, s)
  {
    var m := AsRecord(idx);
    if c in m && s in m[c] {
      var i :| 0 <= i < |idx| && idx[i].0 == c;
      assert s in idx[i].1;
    }
    if Lists(idx, c, s) {
      var i :| 0 <= i < |idx| && idx[i].0 == c && s in idx[i].1;
      assert m[idx[i].0] == idx[i].1;
    }
  }

  /**
   * `handleImport()`: the category store updated with the extracted
   * subcategories, and the reported number of subcategories.
   */
  function HandleImport(cats: ExpenseContext.Categories, rows: seq<CsvRow>, now: nat)
    : (r: (ExpenseContext.Categories, nat))
    ensures |r.0| == |cats|
    ensures r.1 == |DistinctPairs(rows)|
  {
    BuildIndexInvariant(rows);
    var idx := BuildIndex(rows);
    (ExpenseContext.AddSubCategoriesFromData(cats, AsRecord(idx), now), Total(idx))
  }

  /** The trimmed subcategories the rows pair with `key`. */
  function ImportedUnder(rows: seq<CsvRow>, key: string): set<string> {
    set p | p in DistinctPairs(rows) && p.0 == key :: Trim(p.1)
  }

  /** The record handed to `addSubCategoriesFromData` lists under `key` exactly the subcategories paired with it. */
  lemma ImportRecordIsPairs(rows: seq<CsvRow>, key: string, s: string)
    ensures var m := AsRecord(BuildIndex(rows));
      key in m && s in m[key] <==> (key, s) in DistinctPairs(rows)
  {
    BuildIndexInvariant(rows);
    RecordIsListed(BuildIndex(rows), key, s);
  }

  /**
   * After `handleImport`, every category has a sub for each non-blank
   * subcategory the rows pair with the category's key.
   */
  lemma ImportAddsPairs(cats: ExpenseContext.Categories, rows: seq<CsvRow>, now: nat)
    ensures var r := HandleImport(cats, rows, now).0;
      forall i, s :: 0 <= i < |cats| && (ExpenseContext.CategoryKey(cats[i]), s) in DistinctPairs(rows) && Trim(s) != "" ==>
        Trim(s) in ExpenseContext.SubNames(r[i].subCategories)
  {
    var r := HandleImport(cats, rows, now).0;
    var m := AsRecord(BuildIndex(rows));
    forall i, s | 0 <= i < |cats| && (ExpenseContext.CategoryKey(cats[i]), s) in DistinctPairs(rows) && Trim(s) != ""
      ensures Trim(s) in ExpenseContext.SubNames(r[i].subCategories)
    {
      var c := cats[i];
      ImportRecordIsPairs(rows, ExpenseContext.CategoryKey(c), s);
      assert s in ExpenseContext.FromData(c, m);
      ExpenseContext.AddCoversNames(c, m, now);
      assert r[i] == ExpenseContext.AddToCategory(c, m, now);
    }
  }

  /** A key of the import record has at least one subcategory paired with it. */
  lemma RecordKeyHasPair(rows: seq<CsvRow>, key: string) returns (t: string)
    requires key in AsRecord(BuildIndex(rows))
    ensures (key, t) in DistinctPairs(rows)
  {
    var idx := BuildIndex(rows);
    var i :| 0 <= i < |idx| && idx[i].0 == key;
    t := idx[i].1[0];
    ImportRecordIsPairs(rows, key, t);
  }

  /**
   * After `handleImport`, a category that no row pairs with its key has a
   * sub for each non-blank subcategory the rows pair with its name: the
   * documented Japanese category names reach the store this way.
   */
  lemma ImportAddsNamePairs(cats: ExpenseContext.Categories, rows: seq<CsvRow>, now: nat, i: nat, s: string)
    requires i < |cats| && (cats[i].name, s) in DistinctPairs(rows) && Trim(s) != ""
    requires forall t :: (ExpenseContext.CategoryKey(cats[i]), t) !in DistinctPairs(rows)
    ensures Trim(s) in ExpenseContext.SubNames(HandleImport(cats, rows, now).0[i].subCategories)
  {
    var c := cats[i];
    var m := AsRecord(BuildIndex(rows));
    if ExpenseContext.CategoryKey(c) in m {
      var t := RecordKeyHasPair(rows, ExpenseContext.CategoryKey(c));
      assert false;
    }
    ImportRecordIsPairs(rows, c.name, s);
    assert s in ExpenseContext.FromData(c, m);
    ExpenseContext.AddCoversNames(c, m, now);
    assert HandleImport(cats, rows, now).0[i] == ExpenseContext.AddToCategory(c, m, now);
  }

  /**
   * After `handleImport`, a category that no row pairs with its key or its
   * name has a sub for each non-blank subcategory the rows pair with its id.
   */
  lemma ImportAddsIdPairs(cats: ExpenseContext.Categories, rows: seq<CsvRow>, now: nat, i: nat, s: string)
    requires i < |cats| && (cats[i].id, s) in DistinctPairs(rows) && Trim(s) != ""
    requires forall t :: (ExpenseContext.CategoryKey(cats[i]), t) !in DistinctPairs(rows)
    requires forall t :: (cats[i].name, t) !in DistinctPairs(rows)
    ensures Trim(s) in ExpenseContext.SubNames(HandleImport(cats, rows, now).0[i].subCategories)
  {
    var c := cats[i];
    var m := AsRecord(BuildIndex(rows));
    if ExpenseContext.CategoryKey(c) in m {
      var t := RecordKeyHasPair(rows, ExpenseContext.CategoryKey(c));
      assert false;
    }
    if c.name in m {
      var t := RecordKeyHasPair(rows, c.name);
      assert false;
    }
    ImportRecordIsPairs(rows, c.id, s);
    assert s in ExpenseContext.FromData(c, m);
    ExpenseContext.AddCoversNames(c, m, now);
    assert HandleImport(cats, rows, now).0[i] == ExpenseContext.AddToCategory(c, m, now);
  }

  /**
   * Once any row pairs a category's key with a subcategory, rows naming the
   * category by its name or id add nothing: a file mixing "food" and
   * "食費" rows adds only the "food" ones.
   */
  lemma ImportKeyShadowsName(cats: ExpenseContext.Categories, rows: seq<CsvRow>, now: nat, i: nat, t: string)
    requires i < |cats| && (ExpenseContext.CategoryKey(cats[i]), t) in DistinctPairs(rows)
    ensures ExpenseContext.SubNames(HandleImport(cats, rows, now).0[i].subCategories) <=
      ExpenseContext.SubNames(cats[i].subCategories) + ImportedUnder(rows, ExpenseContext.CategoryKey(cats[i]))
  {
    var c := cats[i];
    var key := ExpenseContext.CategoryKey(c);
    var m := AsRecord(BuildIndex(rows));
    ImportRecordIsPairs(rows, key, t);
    assert ExpenseContext.FromData(c, m) == m[key];
    ExpenseContext.AddKeepsOrNamesData(c, m, now);
    forall raw | raw in m[key] ensures Trim(raw) in ImportedUnder(rows, key) {
      ImportRecordIsPairs(rows, key, raw);
    }
    assert HandleImport(cats, rows, now).0[i] == ExpenseContext.AddToCategory(c, m, now);
  }

  /**
   * After `handleImport`, every sub a category has is one it had before or
   * a subcategory the rows pair with its key, its name or its id.
   */
  lemma ImportAddsOnlyPairs(cats: ExpenseContext.Categories, rows: seq<CsvRow>, now: nat)
    ensures var r := HandleImport(cats, rows, now).0;
      forall i :: 0 <= i < |cats| ==> (ExpenseContext.SubNames(r[i].subCategories) <=
        ExpenseContext.SubNames(cats[i].subCategories) + ImportedUnder(rows, ExpenseContext.CategoryKey(cats[i]))
          + ImportedUnder(rows, cats[i].name) + ImportedUnder(rows, cats[i].id))
  {
    var r := HandleImport(cats, rows, now).0;
    forall i | 0 <= i < |cats|
      ensures ExpenseContext.SubNames(r[i].subCategories) <=
        ExpenseContext.SubNames(cats[i].subCategories) + ImportedUnder(rows, ExpenseContext.CategoryKey(cats[i]))
          + ImportedUnder(rows, cats[i].name) + ImportedUnder(rows, cats[i].id)
    {
      ImportCategoryOnlyPairs(cats, rows, now, i);
    }
  }

  lemma ImportCategoryOnlyPairs(cats: ExpenseContext.Categories, rows: seq<CsvRow>, now: nat, i: nat)
    requires i < |cats|
    ensures var c := cats[i];
      ExpenseContext.SubNames(HandleImport(cats, rows, now).0[i].subCategories) <=
        ExpenseContext.SubNames(c.subCategories) + ImportedUnder(rows, ExpenseContext.CategoryKey(c))
          + ImportedUnder(rows, c.name) + ImportedUnder(rows, c.id)
  {
    var c := cats[i];
    var m := AsRecord(BuildIndex(rows));
    assert HandleImport(cats, rows, now).0[i] == ExpenseContext.AddToCategory(c, m, now);
    ExpenseContext.AddKeepsOrNamesData(c, m, now);
    FromDataImported(c, rows);
  }

  /** The names `FromData` picks from the import record are subcategories the rows pair with one of the category's keys. */
  lemma FromDataImported(c: ExpenseContext.MainCategory, rows: seq<CsvRow>)
    ensures ExpenseContext.TrimmedNames(ExpenseContext.FromData(c, AsRecord(BuildIndex(rows))))
      <= ImportedUnder(rows, ExpenseContext.CategoryKey(c)) + ImportedUnder(rows, c.name) + ImportedUnder(rows, c.id)
  {
    var m := AsRecord(BuildIndex(rows));
    forall raw | raw in ExpenseContext.FromData(c, m)
      ensures Trim(raw) in ImportedUnder(rows, ExpenseContext.CategoryKey(c)) + ImportedUnder(rows, c.name)
        + ImportedUnder(rows, c.id)
    {
      var key := if ExpenseContext.CategoryKey(c) in m then ExpenseContext.CategoryKey(c)
        else if c.name in m then c.name else c.id;
      assert key in m && raw in m[key];
      ImportRecordIsPairs(rows, key, raw);
      assert Trim(raw) in ImportedUnder(rows, key);
    }
  }

  /** The pair a row contributes. */
  function PairOf(row: CsvRow): (string, string) {
    (row.category, row.subcategory)
  }

  /** Row `k` contributes the pair `p`. */
  predicate RowGives(rows: seq<CsvRow>, k: int, p: (string, string)) {
    0 <= k < |rows| && Contributes(rows[k]) && PairOf(rows[k]) == p
  }

  /** The index of the first row contributing `p`, or `|rows|` when none does. */
  function FirstGiving(rows: seq<CsvRow>, p: (string, string)): (r: nat)
    ensures r <= |rows|
    ensures r < |rows| ==> RowGives(rows, r, p)
    ensures forall j :: 0 <= j < r ==> !RowGives(rows, j, p)
    decreases |rows|
  {
    if |rows| == 0 then 0
    else
      var n := |rows| - 1;
      var f := FirstGiving(rows[..n], p);
      assert forall j :: 0 <= j < n ==> (RowGives(rows[..n], j, p) <==> RowGives(rows, j, p));
      if f < n then f else if RowGives(rows, n, p) then n else n + 1
  }

  /** Each pair of `r` first occurs in `rows` strictly before the pairs that follow it. */
  predicate InFirstOccurrenceOrder(rows: seq<CsvRow>, r: seq<(string, string)>) {
    forall a, b :: 0 <= a < b < |r| ==> FirstGiving(rows, r[a]) < FirstGiving(rows, r[b])
  }

  /** The distinct pairs are listed in order of first occurrence. */
  lemma {:induction false} DistinctPairsFirstOccurrence(rows: seq<CsvRow>)
    ensures InFirstOccurrenceOrder(rows, DistinctPairs(rows))
    decreases |rows|
  {
    if |rows| > 0 {
      var n := |rows| - 1;
      var front := rows[..n];
      var prefix := DistinctPairs(front);
      var r := DistinctPairs(rows);
      DistinctPairsFirstOccurrence(front);
      assert forall k :: 0 <= k < n ==> front[k] == rows[k];
      assert r[..|prefix|] == prefix && |r| <= |prefix| + 1;
      forall a | 0 <= a < |prefix|
        ensures FirstGiving(rows, r[a]) == FirstGiving(front, prefix[a]) < n
      {
        assert prefix[a] in prefix;
        var k :| 0 <= k < |front| && Contributes(front[k]) && prefix[a] == (front[k].category, front[k].subcategory);
        assert RowGives(front, k, prefix[a]);
      }
      if |r| == |prefix| + 1 {
        assert r[|prefix|] !in prefix && r[|prefix|] == PairOf(rows[n]);
        assert forall k :: 0 <= k < n ==> !RowGives(front, k, r[|prefix|]);
        assert FirstGiving(rows, r[|prefix|]) == n;
      }
    }
  }

  /** The distinct categories of `pairs`, in order of first occurrence. */
  function CategoriesOf(pairs: seq<(string, string)>): seq<string>
    decreases |pairs|
  {
    if |pairs| == 0 then []
    else
      var pre := CategoriesOf(pairs[..|pairs| - 1]);
      var c := pairs[|pairs| - 1].0;
      if c in pre then pre else pre + [c]
  }

  /** Each category is listed once, and exactly the categories some pair has are listed. */
  lemma {:induction false} CategoriesOfListsEach(pairs: seq<(string, string)>)
    ensures Distinct(CategoriesOf(pairs))
    ensures forall c :: c in CategoriesOf(pairs) <==> exists k :: 0 <= k < |pairs| && pairs[k].0 == c
    decreases |pairs|
  {
    if |pairs| > 0 {
      var front := pairs[..|pairs| - 1];
      CategoriesOfListsEach(front);
      assert forall k :: 0 <= k < |front| ==> front[k] == pairs[k];
    }
  }

  /** The subcategories paired with `c` in `pairs`, in order. */
  function SubsOf(pairs: seq<(string, string)>, c: string): seq<string>
    decreases |pairs|
  {
    if |pairs| == 0 then []
    else SubsOf(pairs[..|pairs| - 1], c) + (if pairs[|pairs| - 1].0 == c then [pairs[|pairs| - 1].1] else [])
  }

  /** Exactly the subcategories paired with `c` are listed. */
  lemma {:induction false} SubsOfListsEach(pairs: seq<(string, string)>, c: string)
    ensures forall s :: s in SubsOf(pairs, c) <==> (c, s) in pairs
    decreases |pairs|
  {
    if |pairs| > 0 {
      var front := pairs[..|pairs| - 1];
      SubsOfListsEach(front, c);
      assert pairs == front + [pairs[|pairs| - 1]];
    }
  }

  /**
   * The reference record of a list of distinct pairs: its categories in
   * order of first occurrence, each with its subcategories in order.
   */
  function Grouped(pairs: seq<(string, string)>): Index {
    var cats := CategoriesOf(pairs);
    seq(|cats|, i requires 0 <= i < |cats| => (cats[i], SubsOf(pairs, cats[i])))
  }

  /** The first entry of the grouped record with category `c` is the one at `c`'s position. */
  lemma GroupedFind(pairs: seq<(string, string)>, c: string)
    ensures var f := FindIndex(Grouped(pairs), (e: (string, seq<string>)) => e.0 == c);
      && (f.None? <==> c !in CategoriesOf(pairs))
      && (f.Some? ==> f.value < |CategoriesOf(pairs)| && CategoriesOf(pairs)[f.value] == c)
  {
    var f := FindIndex(Grouped(pairs), (e: (string, seq<string>)) => e.0 == c);
    if c in CategoriesOf(pairs) {
      var i :| 0 <= i < |CategoriesOf(pairs)| && CategoriesOf(pairs)[i] == c;
      assert Grouped(pairs)[i].0 == c;
    }
  }

  /** Adding one more pair lists its category at the end, unless it is already listed. */
  lemma CategoriesOfSnoc(pairs: seq<(string, string)>, c: string, s: string)
    ensures CategoriesOf(pairs + [(c, s)]) == if c in CategoriesOf(pairs) then CategoriesOf(pairs) else CategoriesOf(pairs) + [c]
  {
    assert (pairs + [(c, s)])[..|pairs|] == pairs;
  }

  /** Adding one more pair extends only its own category's list. */
  lemma SubsOfSnoc(pairs: seq<(string, string)>, c: string, s: string, x: string)
    ensures SubsOf(pairs + [(c, s)], x) == SubsOf(pairs, x) + (if x == c then [s] else [])
  {
    assert (pairs + [(c, s)])[..|pairs|] == pairs;
  }

  /** A category that no pair has has no subcategories. */
  lemma {:induction false} SubsOfAbsent(pairs: seq<(string, string)>, c: string)
    requires c !in CategoriesOf(pairs)
    ensures SubsOf(pairs, c) == []
    decreases |pairs|
  {
    if |pairs| > 0 {
      var front := pairs[..|pairs| - 1];
      assert pairs[|pairs| - 1].0 != c;
      assert c !in CategoriesOf(front);
      SubsOfAbsent(front, c);
    }
  }

  /** A new pair of a new category adds that category at the end of the record. */
  lemma GroupedAppendCategory(pairs: seq<(string, string)>, c: string, s: string)
    requires c !in CategoriesOf(pairs)
    ensures Grouped(pairs + [(c, s)]) == Grouped(pairs) + [(c, [s])]
  {
    var cats := CategoriesOf(pairs);
    var idx := Grouped(pairs);
    var after := Grouped(pairs + [(c, s)]);
    CategoriesOfSnoc(pairs, c, s);
    var cats' := CategoriesOf(pairs + [(c, s)]);
    assert cats' == cats + [c];
    SubsOfAbsent(pairs, c);
    forall i | 0 <= i < |after| ensures after[i] == (idx + [(c, [s])])[i] {
      assert after[i] == (cats'[i], SubsOf(pairs + [(c, s)], cats'[i]));
      if i < |idx| {
        assert cats'[i] == cats[i] && cats[i] != c;
        SubsOfSnoc(pairs, c, s, cats[i]);
        assert SubsOf(pairs + [(c, s)], cats[i]) == SubsOf(pairs, cats[i]);
        assert idx[i] == (cats[i], SubsOf(pairs, cats[i]));
        assert (idx + [(c, [s])])[i] == idx[i];
      } else {
        assert cats'[i] == c;
        SubsOfSnoc(pairs, c, s, c);
        assert SubsOf(pairs + [(c, s)], c) == [s];
        assert (idx + [(c, [s])])[i] == (c, [s]);
      }
    }
  }

  /** A new pair of a listed category, at position `i`, extends that category's list. */
  lemma GroupedExtendCategory(pairs: seq<(string, string)>, c: string, s: string, i: nat)
    requires i < |CategoriesOf(pairs)| && CategoriesOf(pairs)[i] == c
    ensures Grouped(pairs + [(c, s)]) == Grouped(pairs)[i := (c, Grouped(pairs)[i].1 + [s])]
  {
    var cats := CategoriesOf(pairs);
    var idx := Grouped(pairs);
    var after := Grouped(pairs + [(c, s)]);
    CategoriesOfSnoc(pairs, c, s);
    CategoriesOfListsEach(pairs);
    assert CategoriesOf(pairs + [(c, s)]) == cats;
    forall j | 0 <= j < |after| ensures after[j] == idx[i := (c, idx[i].1 + [s])][j] {
      SubsOfSnoc(pairs, c, s, cats[j]);
      assert after[j] == (cats[j], SubsOf(pairs + [(c, s)], cats[j]));
      assert idx[j] == (cats[j], SubsOf(pairs, cats[j]));
      if j != i {
        assert cats[j] != c;
        assert SubsOf(pairs + [(c, s)], cats[j]) == SubsOf(pairs, cats[j]);
        assert idx[i := (c, idx[i].1 + [s])][j] == idx[j];
      } else {
        assert SubsOf(pairs + [(c, s)], c) == SubsOf(pairs, c) + [s];
        assert idx[i := (c, idx[i].1 + [s])][j] == (c, idx[i].1 + [s]);
      }
    }
  }

  /** A row whose pair is new turns the record of the pairs so far into the record with that pair added. */
  lemma AddRowGroupedNew(pairs: seq<(string, string)>, row: CsvRow)
    requires Contributes(row) && PairOf(row) !in pairs
    ensures AddRow(Grouped(pairs), row) == Grouped(pairs + [PairOf(row)])
  {
    var c, s := row.category, row.subcategory;
    var idx := Grouped(pairs);
    GroupedFind(pairs, c);
    match FindIndex(idx, (e: (string, seq<string>)) => e.0 == c)
    case None =>
      GroupedAppendCategory(pairs, c, s);
    case Some(i) =>
      SubsOfListsEach(pairs, c);
      assert s !in idx[i].1;
      GroupedExtendCategory(pairs, c, s, i);
  }

  /** A row whose pair is already listed leaves the record as it is. */
  lemma AddRowGroupedOld(pairs: seq<(string, string)>, row: CsvRow)
    requires Contributes(row) && PairOf(row) in pairs
    ensures AddRow(Grouped(pairs), row) == Grouped(pairs)
  {
    var c, s := row.category, row.subcategory;
    GroupedFind(pairs, c);
    CategoriesOfListsEach(pairs);
    SubsOfListsEach(pairs, c);
    var k :| 0 <= k < |pairs| && pairs[k] == (c, s);
    assert pairs[k].0 == c;
  }

  /**
   * The record `handleImport` builds is the distinct pairs grouped by
   * category: categories in order of their first contributing row, and
   * under each its subcategories in order of first occurrence, each once.
   */
  lemma {:induction false} BuildIndexIsGrouped(rows: seq<CsvRow>)
    ensures BuildIndex(rows) == Grouped(DistinctPairs(rows))
    decreases |rows|
  {
    if |rows| == 0 {
      assert Grouped([]) == [];
    } else {
      var front := rows[..|rows| - 1];
      var row := rows[|rows| - 1];
      BuildIndexIsGrouped(front);
      assert front + [row] == rows;
      FoldAppend(AddRow, [], front, [row]);
      assert Fold(AddRow, BuildIndex(front), [row]) == AddRow(BuildIndex(front), row) by {
        assert [row][1..] == [];
      }
      var prefix := DistinctPairs(front);
      if Contributes(row) {
        if PairOf(row) in prefix {
          AddRowGroupedOld(prefix, row);
        } else {
          AddRowGroupedNew(prefix, row);
        }
      }
    }
  }

  // ---------------------------------------------------------------------
  // What the dialog shows

  /** The first `limit` items, and how many more there are when any are cut. */
  function Truncate<T>(items: seq<T>, limit: nat): (r: (seq<T>, Option<nat>))
    ensures |r.0| <= limit && |r.0| <= |items| && r.0 == items[..|r.0|]
    ensures r.1.None? <==> |items| <= limit
    ensures |r.0| + r.1.GetOr(0) == |items|
  {
    if |items| > limit then (items[..limit], Some(|items| - limit)) else (items, None)
  }

  /** `CsvErrorAlert`: at most 10 messages, then "...他 n 件". */
  function ShownErrors(errors: seq<string>): (r: (seq<string>, Option<nat>))
    ensures |r.0| == if |errors| <= 10 then |errors| else 10
    ensures r.0 == errors[..|r.0|]
    ensures r.1.Some? ==> r.1.value > 0 && |r.0| + r.1.value == |errors|
    ensures r.1.None? ==> r.0 == errors
  {
    Truncate(errors, 10)
  }

  /** The preview table: at most 50 rows, then "...他 n 件のデータ". */
  function ShownRows(rows: seq<CsvRow>): (r: (seq<CsvRow>, Option<nat>))
    ensures |r.0| == if |rows| <= 50 then |rows| else 50
    ensures r.0 == rows[..|r.0|]
    ensures r.1.Some? ==> r.1.value > 0 && |r.0| + r.1.value == |rows|
    ensures r.1.None? ==> r.0 == rows
  {
    Truncate(rows, 50)
  }
}
