/**
 * The sidebar: which main categories are expanded, and how clicks change
 * the selection held by the category store.
 */
module Sidebar {
  import opened Base
  import ExpenseContext

  type Selection = ExpenseContext.Selection

  /** The ids other than `id`, in order (`prev.filter((item) => item !== id)`). */
  function Without(expanded: seq<string>, id: string): seq<string> {
    Filter(expanded, (x: string) => x != id)
  }

  /** `r` is the ids of `expanded` other than `id`, at positions `idx`, in order; see `SelectsInOrder`. */
  ghost predicate KeptInOrder(r: seq<string>, expanded: seq<string>, id: string, idx: seq<nat>) {
    SelectsInOrder(r, expanded, (x: string) => x != id, idx)
  }

  lemma WithoutSelects(expanded: seq<string>, id: string)
    ensures exists idx :: KeptInOrder(Without(expanded, id), expanded, id, idx)
  {
    FilterSelects(expanded, (x: string) => x != id);
    var idx :| SelectsInOrder(Without(expanded, id), expanded, (x: string) => x != id, idx);
    assert KeptInOrder(Without(expanded, id), expanded, id, idx);
  }

  /**
   * `toggleExpanded(id)`: remove every occurrence of a listed id, keeping
   * the other ids in order, or append an unlisted one.
   */
  function ToggleExpanded(expanded: seq<string>, id: string): (r: seq<string>)
    ensures id in expanded ==> forall x :: x in r <==> x in expanded && x != id
    ensures id in expanded ==> exists idx :: KeptInOrder(r, expanded, id, idx)
    ensures id !in expanded ==> r == expanded + [id]
    ensures |r| <= |expanded| + 1
  {
    if id in expanded then
      WithoutSelects(expanded, id);
      Without(expanded, id)
    else expanded + [id]
  }

  /** Toggling keeps the expanded list free of duplicates. */
  lemma ToggleExpandedKeepsDistinct(expanded: seq<string>, id: string)
    requires Distinct(expanded)
    ensures Distinct(ToggleExpanded(expanded, id))
  {
    if id in expanded {
      FilterDistinct(expanded, (x: string) => x != id);
    }
  }

  /** Expanding an unlisted id and toggling it again gives back the list. */
  lemma ToggleExpandedTwiceRestores(expanded: seq<string>, id: string)
    requires id !in expanded
    ensures ToggleExpanded(ToggleExpanded(expanded, id), id) == expanded
  {
    var p := (x: string) => x != id;
    FilterAppend(expanded, [id], p);
    FilterKeepsAll(expanded, p);
    FilterUnfold([id], p);
    assert [id][1..] == [];
  }

  /**
   * Collapsing a listed id and toggling it again lists the same ids, but
   * moves that id to the end: ["a", "b"] becomes ["b", "a"].
   */
  lemma ToggleExpandedTwiceReorders()
    ensures ToggleExpanded(ToggleExpanded(["a", "b"], "a"), "a") == ["b", "a"]
  {
    var p := (x: string) => x != "a";
    FilterUnfold(["a", "b"], p);
    FilterUnfold(["b"], p);
    assert ["a", "b"][1..] == ["b"] && ["b"][1..] == [];
  }

  /** The sidebar's view state: the selection and the expanded ids. */
  datatype View = View(selection: Selection, expanded: seq<string>)

  /** The sidebar starts with only the selected main category expanded. */
  function Initial(selection: Selection): (v: View)
    ensures v.expanded == [selection.main] && v.selection == selection
  {
    View(selection, [selection.main])
  }

  /** A category button is highlighted when it is the selected main and no sub is selected (`null` or ""). */
  predicate IsSelected(selection: Selection, categoryId: string) {
    selection.main == categoryId && !ExpenseContext.SubSelected(selection)
  }

  /** A sub button is highlighted when it is the selected sub. */
  predicate IsSubSelected(selection: Selection, subId: string) {
    selection.sub == Some(subId)
  }

  /** Clicking a category selects it, clears the sub, and expands it when collapsed. */
  function ClickCategory(v: View, categoryId: string): (r: View)
    ensures r.selection == ExpenseContext.Selection(categoryId, None)
    ensures categoryId in r.expanded
    ensures forall x :: x in v.expanded ==> x in r.expanded
    ensures forall x :: x in r.expanded ==> x in v.expanded || x == categoryId
  {
    var isExpanded := categoryId in v.expanded;
    View(ExpenseContext.Selection(categoryId, None),
         if !isExpanded then ToggleExpanded(v.expanded, categoryId) else v.expanded)
  }

  /** Choosing a sub selects it together with the category that owns it; nothing expands or collapses. */
  function SelectSub(v: View, categoryId: string, subId: string): (r: View)
    ensures r.selection.main == categoryId && IsSubSelected(r.selection, subId)
    ensures r.expanded == v.expanded
  {
    View(ExpenseContext.Selection(categoryId, Some(subId)), v.expanded)
  }

  /** "All categories" clears both selections. */
  function SelectAll(v: View): (r: View)
    ensures r.selection.main == "" && r.selection.sub.None?
    ensures r.expanded == v.expanded
  {
    View(ExpenseContext.Selection("", None), v.expanded)
  }

  /**
   * After a category click exactly that category is highlighted; after
   * choosing a non-empty sub no category is, and the sub is.
   */
  lemma HighlightAfterClicks(v: View, categoryId: string, subId: string, other: string)
    requires subId != ""
    ensures IsSelected(ClickCategory(v, categoryId).selection, other) <==> other == categoryId
    ensures !IsSelected(SelectSub(v, categoryId, subId).selection, other)
    ensures IsSubSelected(SelectSub(v, categoryId, subId).selection, subId)
    ensures IsSelected(SelectAll(v).selection, other) <==> other == ""
  {
  }

  /** Clicking an expanded category twice leaves it expanded: a click never collapses. */
  lemma ClickNeverCollapses(v: View, categoryId: string)
    ensures ClickCategory(ClickCategory(v, categoryId), categoryId).expanded == ClickCategory(v, categoryId).expanded
  {
  }
}
