/**
 * The dashboard's heading: the title naming the current selection, the
 * number of visible subcategories and the one-line description built from it.
 */
module Dashboard {
  import opened Base
  import opened Text
  import ExpenseContext
  import Sidebar
  import Table

  const ALL_CATEGORIES: string := "すべてのカテゴリ"
  const SELECTED_SUB_DESCRIPTION: string := "選択されたサブカテゴリの月別支出推移と詳細データ"

  /**
   * `getCurrentCategory()`: "all" without a known main; otherwise the main's
   * name, followed by " > " and the sub's name when a selected sub is found
   * in that main.
   */
  function CurrentCategory(selection: ExpenseContext.Selection, cats: ExpenseContext.Categories): (r: string)
    ensures selection.main == "" || ExpenseContext.FindCategory(cats, selection.main).None? ==> r == ALL_CATEGORIES
    ensures selection.main != "" && ExpenseContext.FindCategory(cats, selection.main).Some? ==>
      var main := ExpenseContext.FindCategory(cats, selection.main).value;
      if ExpenseContext.SubSelected(selection) && ExpenseContext.FindSub(main.subCategories, selection.sub.value).Some?
      then r == main.name + " > " + ExpenseContext.FindSub(main.subCategories, selection.sub.value).value.name
      else r == main.name
  {
    if selection.main == "" then ALL_CATEGORIES
    else
      match ExpenseContext.FindCategory(cats, selection.main)
      case None => ALL_CATEGORIES
      case Some(main) =>
        if ExpenseContext.SubSelected(selection) then
          match ExpenseContext.FindSub(main.subCategories, selection.sub.value)
          case Some(sub) => main.name + " > " + sub.name
          case None => main.name
        else main.name
  }

  /** The visible subcategories of each listed category, looked up by its id in `cats`, added up. */
  function CountVisible(cats: ExpenseContext.Categories, listed: ExpenseContext.Categories): nat {
    if |listed| == 0 then 0
    else CountVisible(cats, listed[..|listed| - 1])
         + |ExpenseContext.GetVisibleSubCategories(cats, listed[|listed| - 1].id)|
  }

  /** `getSubCategoryCount()`. */
  function SubCategoryCount(selection: ExpenseContext.Selection, cats: ExpenseContext.Categories): (r: nat)
    ensures selection.main != "" ==> r == |ExpenseContext.GetVisibleSubCategories(cats, selection.main)|
    ensures selection.main != "" && ExpenseContext.FindCategory(cats, selection.main).None? ==> r == 0
  {
    if selection.main == "" then CountVisible(cats, cats)
    else |ExpenseContext.GetVisibleSubCategories(cats, selection.main)|
  }

  /** `getDescription()`. */
  function Description(selection: ExpenseContext.Selection, cats: ExpenseContext.Categories): (r: string)
    ensures selection.main == "" ==>
      r == "全" + NatToString(|cats|) + "カテゴリ・" + NatToString(SubCategoryCount(selection, cats))
           + "サブカテゴリの月別支出推移と詳細データ"
    ensures selection.main != "" && ExpenseContext.SubSelected(selection) ==> r == SELECTED_SUB_DESCRIPTION
    ensures selection.main != "" && !ExpenseContext.SubSelected(selection) ==>
      r == NatToString(|ExpenseContext.GetVisibleSubCategories(cats, selection.main)|)
           + "サブカテゴリを含む月別支出推移と詳細データ"
  {
    var count := SubCategoryCount(selection, cats);
    if selection.main == "" then
      "全" + NatToString(|cats|) + "カテゴリ・" + NatToString(count) + "サブカテゴリの月別支出推移と詳細データ"
    else if ExpenseContext.SubSelected(selection) then SELECTED_SUB_DESCRIPTION
    else NatToString(count) + "サブカテゴリを含む月別支出推移と詳細データ"
  }

  /** No two main categories share an id. */
  predicate DistinctIds(cats: ExpenseContext.Categories) {
    forall i, j :: 0 <= i < j < |cats| ==> cats[i].id != cats[j].id
  }

  /** The number of visible subcategories each listed category itself holds, added up. */
  function OwnVisible(listed: ExpenseContext.Categories): nat {
    if |listed| == 0 then 0
    else OwnVisible(listed[..|listed| - 1])
         + |Filter(listed[|listed| - 1].subCategories, (s: ExpenseContext.SubCategory) => s.isVisible)|
  }

  /** With distinct ids, looking a category up by its own id finds it. */
  lemma FindOwnId(cats: ExpenseContext.Categories, i: nat)
    requires DistinctIds(cats) && i < |cats|
    ensures ExpenseContext.FindCategory(cats, cats[i].id) == Some(cats[i])
  {
    var r := ExpenseContext.FindCategory(cats, cats[i].id);
    assert r.Some?;
    var j :| 0 <= j < |cats| && cats[j] == r.value;
    assert cats[j].id == cats[i].id;
  }

  /** Counting a prefix of `cats` by id lookups counts the prefix's own visible subcategories. */
  lemma {:induction false} CountVisiblePrefix(cats: ExpenseContext.Categories, n: nat)
    requires DistinctIds(cats) && n <= |cats|
    ensures CountVisible(cats, cats[..n]) == OwnVisible(cats[..n])
  {
    if n > 0 {
      CountVisiblePrefix(cats, n - 1);
      assert cats[..n][..n - 1] == cats[..n - 1];
      FindOwnId(cats, n - 1);
    }
  }

  /**
   * With nothing selected and distinct category ids, the count is the total
   * number of visible subcategories over all main categories.
   */
  lemma CountAllIsVisibleTotal(cats: ExpenseContext.Categories, sub: Option<string>)
    requires DistinctIds(cats)
    ensures SubCategoryCount(ExpenseContext.Selection("", sub), cats) == OwnVisible(cats)
  {
    CountVisiblePrefix(cats, |cats|);
    assert cats[..|cats|] == cats;
  }

  /** Clicking a category in the sidebar titles the dashboard with its name, or "all" for an unknown id. */
  lemma TitleAfterClick(v: Sidebar.View, id: string, cats: ExpenseContext.Categories)
    ensures var title := CurrentCategory(Sidebar.ClickCategory(v, id).selection, cats);
      var main := ExpenseContext.FindCategory(cats, id);
      title == if id == "" || main.None? then ALL_CATEGORIES else main.value.name
  {
  }

  /** Choosing a known sub of a known category titles the dashboard "<main> > <sub>". */
  lemma TitleAfterSelectSub(v: Sidebar.View, mainId: string, subId: string, cats: ExpenseContext.Categories)
    requires mainId != "" && subId != ""
    requires ExpenseContext.Lookup(cats, mainId, subId).Some?
    ensures CurrentCategory(Sidebar.SelectSub(v, mainId, subId).selection, cats)
      == ExpenseContext.FindCategory(cats, mainId).value.name + " > " + ExpenseContext.Lookup(cats, mainId, subId).value.name
  {
  }

  /** With only a main category selected, the count in the description is the number of table columns. */
  lemma CountMatchesTableColumns(selection: ExpenseContext.Selection, data: seq<Table.MonthData>,
                                 cats: ExpenseContext.Categories, k: nat)
    requires selection.main != "" && ExpenseContext.FindCategory(cats, selection.main).Some?
    requires !ExpenseContext.SubSelected(selection)
    requires k < |data|
    ensures |Table.GetTableData(selection, data, cats)[k].categories| == SubCategoryCount(selection, cats)
  {
    Table.MainSelectedRows(selection, data, cats);
  }
}
