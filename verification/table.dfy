/**
 * The monthly expense table (`getTableData`): one row per month, whose
 * columns depend on what is selected in the category store.
 */
module Table {
  import opened Base
  import ExpenseContext

  /** One month of expense data: its label and the amount under each category or subcategory id. */
  datatype MonthData = MonthData(month: string, amounts: map<string, int>)

  /** A number shown in the table: `month[id]` may be `undefined`, and a sum containing it is `NaN`. */
  datatype Amount = Yen(n: int) | Missing | NotANumber

  /** `month[id] as number`. */
  function AmountOf(m: MonthData, id: string): (a: Amount)
    ensures a.Yen? <==> id in m.amounts
    ensures a != NotANumber
  {
    if id in m.amounts then Yen(m.amounts[id]) else Missing
  }

  /** `sum + x`: `NaN` once any term is missing. */
  function Plus(sum: Amount, x: Amount): Amount {
    if sum.Yen? && x.Yen? then Yen(sum.n + x.n) else NotANumber
  }

  datatype Cell = Cell(name: string, amount: Amount, color: string)

  datatype Row = Row(month: string, categories: seq<Cell>, total: Amount)

  /** The sum of a row's columns, left to right from 0. */
  function SumCells(cells: seq<Cell>): (r: Amount)
    ensures r.Yen? <==> forall k :: 0 <= k < |cells| ==> cells[k].amount.Yen?
    decreases |cells|
  {
    if |cells| == 0 then Yen(0) else Plus(SumCells(cells[..|cells| - 1]), cells[|cells| - 1].amount)
  }

  /** `mainCategories.reduce((sum, cat) => sum + month[cat.id], 0)`. */
  function SumCategories(m: MonthData, cats: ExpenseContext.Categories): Amount
    decreases |cats|
  {
    if |cats| == 0 then Yen(0) else Plus(SumCategories(m, cats[..|cats| - 1]), AmountOf(m, cats[|cats| - 1].id))
  }

  /** The all-categories row: one column per main category, in order, and their sum. */
  function AllCategoriesRow(m: MonthData, cats: ExpenseContext.Categories): Row {
    Row(m.month,
        seq(|cats|, i requires 0 <= i < |cats| => Cell(cats[i].name, AmountOf(m, cats[i].id), cats[i].color)),
        SumCategories(m, cats))
  }

  /** `getTableData()`. */
  function GetTableData(selection: ExpenseContext.Selection, data: seq<MonthData>, cats: ExpenseContext.Categories)
    : (r: seq<Row>)
    ensures selection.main != "" && ExpenseContext.FindCategory(cats, selection.main).None? ==> r == []
    ensures selection.main == "" || ExpenseContext.FindCategory(cats, selection.main).Some? ==> (
      && |r| == |data|
      && forall k :: 0 <= k < |data| ==> r[k].month == data[k].month)
  {
    if selection.main == "" then
      seq(|data|, k requires 0 <= k < |data| => AllCategoriesRow(data[k], cats))
    else
      match ExpenseContext.FindCategory(cats, selection.main)
      case None => []
      case Some(main) =>
        if ExpenseContext.SubSelected(selection) then
          var subId := selection.sub.value;
          var sub := ExpenseContext.FindSub(main.subCategories, subId);
          var name := if sub.Some? then sub.value.name else "";
          var color := if sub.Some? then sub.value.color else "";
          seq(|data|, k requires 0 <= k < |data| =>
            Row(data[k].month, [Cell(name, AmountOf(data[k], subId), color)], AmountOf(data[k], subId)))
        else
          var visible := ExpenseContext.GetVisibleSubCategories(cats, main.id);
          seq(|data|, k requires 0 <= k < |data| =>
            Row(data[k].month,
                seq(|visible|, j requires 0 <= j < |visible| =>
                  Cell(visible[j].name, AmountOf(data[k], visible[j].id), visible[j].color)),
                AmountOf(data[k], main.id)))
  }

  /** Summing the categories is summing the row's columns. */
  lemma {:induction false} SumCategoriesIsSumCells(m: MonthData, cats: ExpenseContext.Categories)
    ensures SumCategories(m, cats) == SumCells(AllCategoriesRow(m, cats).categories)
    decreases |cats|
  {
    if |cats| > 0 {
      var front := cats[..|cats| - 1];
      SumCategoriesIsSumCells(m, front);
      var cells := AllCategoriesRow(m, cats).categories;
      assert cells[..|cells| - 1] == AllCategoriesRow(m, front).categories;
    }
  }

  /**
   * With nothing selected, each row has one column per main category, in
   * order, with its name, colour and amount, and its total is the sum of
   * those columns (`NaN` when a month lacks one of them).
   */
  lemma AllCategoriesTotals(data: seq<MonthData>, cats: ExpenseContext.Categories, sub: Option<string>)
    ensures var r := GetTableData(ExpenseContext.Selection("", sub), data, cats);
      forall k :: 0 <= k < |r| ==> (
        && |r[k].categories| == |cats|
        && (forall i :: 0 <= i < |cats| ==>
              (&& r[k].categories[i].name == cats[i].name
               && r[k].categories[i].color == cats[i].color
               && r[k].categories[i].amount == AmountOf(data[k], cats[i].id)))
        && r[k].total == SumCells(r[k].categories))
  {
    var r := GetTableData(ExpenseContext.Selection("", sub), data, cats);
    forall k | 0 <= k < |r| ensures r[k].total == SumCells(r[k].categories) {
      SumCategoriesIsSumCells(data[k], cats);
    }
  }

  /**
   * With a sub selected, each row has that sub's single column, with its
   * name and colour, and its amount as total; a sub the main does not have
   * shows an empty name and colour.
   */
  lemma SubSelectedRows(selection: ExpenseContext.Selection, data: seq<MonthData>, cats: ExpenseContext.Categories)
    requires selection.main != "" && ExpenseContext.FindCategory(cats, selection.main).Some?
    requires ExpenseContext.SubSelected(selection)
    ensures var r := GetTableData(selection, data, cats);
      var main := ExpenseContext.FindCategory(cats, selection.main).value;
      forall k :: 0 <= k < |r| ==> (
        && |r[k].categories| == 1
        && r[k].total == r[k].categories[0].amount == AmountOf(data[k], selection.sub.value)
        && (ExpenseContext.FindSub(main.subCategories, selection.sub.value).None? ==>
              r[k].categories[0].name == "" && r[k].categories[0].color == "")
        && (ExpenseContext.FindSub(main.subCategories, selection.sub.value).Some? ==>
              var sub := ExpenseContext.FindSub(main.subCategories, selection.sub.value).value;
              r[k].categories[0].name == sub.name && r[k].categories[0].color == sub.color))
  {
  }

  /**
   * With only a main selected, the columns are its visible subs, with their
   * names, colours and amounts, but the total is the main category's own
   * amount, which need not be their sum.
   */
  lemma MainSelectedRows(selection: ExpenseContext.Selection, data: seq<MonthData>, cats: ExpenseContext.Categories)
    requires selection.main != "" && ExpenseContext.FindCategory(cats, selection.main).Some?
    requires !ExpenseContext.SubSelected(selection)
    ensures var r := GetTableData(selection, data, cats);
      var visible := ExpenseContext.GetVisibleSubCategories(cats, selection.main);
      forall k :: 0 <= k < |r| ==> (
        && |r[k].categories| == |visible|
        && (forall j :: 0 <= j < |visible| ==>
              && r[k].categories[j].name == visible[j].name
              && r[k].categories[j].color == visible[j].color
              && r[k].categories[j].amount == AmountOf(data[k], visible[j].id))
        && r[k].total == AmountOf(data[k], selection.main))
  {
  }

  /** A concrete month whose main total differs from the sum of its visible sub columns. */
  lemma MainTotalIsNotSubSum()
    ensures var cats := [ExpenseContext.MainCategory("food", "食費", "utensils", "bg-orange-500",
                           [ExpenseContext.SubCategory("dining", "外食", "bg-orange-400", true, false)])];
      var data := [MonthData("1月", map["food" := 45000, "dining" := 20000])];
      var r := GetTableData(ExpenseContext.Selection("food", None), data, cats);
      r[0].total == Yen(45000) && SumCells(r[0].categories) == Yen(20000)
  {
    var dining := ExpenseContext.SubCategory("dining", "外食", "bg-orange-400", true, false);
    var cats := [ExpenseContext.MainCategory("food", "食費", "utensils", "bg-orange-500", [dining])];
    var data := [MonthData("1月", map["food" := 45000, "dining" := 20000])];
    var visible := ExpenseContext.GetVisibleSubCategories(cats, "food");
    assert visible == [dining] by {
      FilterKeepsAll([dining], (s: ExpenseContext.SubCategory) => s.isVisible);
    }
    var r := GetTableData(ExpenseContext.Selection("food", None), data, cats);
    assert r[0].categories == [Cell("外食", Yen(20000), "bg-orange-400")];
    assert r[0].categories[..0] == [];
  }
}
