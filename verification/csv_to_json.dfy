/**
 * `CSVToJson.convert`: the rows the CSV parser produces (header row as keys,
 * dynamic typing, empty lines skipped), with the two flag columns turned
 * into booleans. The parser itself is a parameter.
 */
module CsvToJson {
  import opened Base
  import opened Js
  import opened BackErrors

  /** A parsed row: header name to cell value; a missing key reads as `undefined`. */
  type Row = map<string, Value>

  const COUNTED: string := "計算対象"
  const DATE: string := "日付"
  const AMOUNT: string := "金額（円）"
  const SUB_CATEGORY: string := "中項目"
  const TRANSFER: string := "振替"

  /** `row[key]`. */
  function Field(row: Row, key: string): Value {
    if key in row then row[key] else Undefined
  }

  /**
   * What `Papa.parse(csv, { header: true, dynamicTyping: true,
   * skipEmptyLines: true })` reports: the data rows, the number of parse
   * errors, and `JSON.stringify` of the whole result.
   */
  datatype ParseOutput = ParseOutput(data: seq<Row>, errorCount: nat, json: string)

  /** `{ ...row, 計算対象: !!row.計算対象, 振替: !!row.振替 }`. */
  function Normalize(row: Row): (r: Row)
    ensures r.Keys == row.Keys + {COUNTED, TRANSFER}
    ensures r[COUNTED] == Bool(Truthy(Field(row, COUNTED)))
    ensures r[TRANSFER] == Bool(Truthy(Field(row, TRANSFER)))
    ensures forall k :: k in row && k != COUNTED && k != TRANSFER ==> r[k] == row[k]
  {
    row[COUNTED := Bool(Truthy(Field(row, COUNTED)))][TRANSFER := Bool(Truthy(Field(row, TRANSFER)))]
  }

  /**
   * `convert()`, decorated: any parse error aborts with the serialised
   * parse result; otherwise every row, in order, normalised.
   */
  function Convert(parse: string -> ParseOutput, csv: string): (r: Outcome<seq<Row>>)
    ensures parse(csv).errorCount > 0 ==>
      r == Err(JsError(AppError("convert"), "Errors while parsing:" + parse(csv).json))
    ensures parse(csv).errorCount == 0 ==>
      r.Ok? && |r.value| == |parse(csv).data| &&
      forall i :: 0 <= i < |r.value| ==> r.value[i] == Normalize(parse(csv).data[i])
  {
    var parsed := parse(csv);
    if parsed.errorCount > 0 then Decorate("convert", Throw("Errors while parsing:" + parsed.json))
    else Ok(seq(|parsed.data|, i requires 0 <= i < |parsed.data| => Normalize(parsed.data[i])))
  }

  /** Normalising twice changes nothing more: flags that are already booleans stay as they are. */
  lemma NormalizeIdempotent(row: Row)
    ensures Normalize(Normalize(row)) == Normalize(row)
  {
    var once := Normalize(row);
    assert Field(once, COUNTED) == Bool(Truthy(Field(row, COUNTED)));
    assert Field(once, TRANSFER) == Bool(Truthy(Field(row, TRANSFER)));
  }

  /**
   * The flag encoding of the bank export: a cell holding 1 becomes `true`,
   * 0 or an empty (null) cell becomes `false`, and a missing column too.
   */
  lemma FlagDecoding(row: Row, b: bool)
    ensures Normalize(row[COUNTED := Num(if b then 1 else 0)])[COUNTED] == Bool(b)
    ensures Normalize(row[COUNTED := Null])[COUNTED] == Bool(false)
    ensures COUNTED !in row ==> Normalize(row)[COUNTED] == Bool(false)
  {
  }
}
