/**
 * The category store of the dashboard (`ExpenseProvider`): main categories
 * with their subcategories, visibility toggling, subcategories added from
 * imported data, and the visible-subcategory query. Persistence to local
 * storage is not modelled; the clock used in new ids is a parameter.
 */
module ExpenseContext {
  import opened Base
  import opened Text

  datatype SubCategory = SubCategory(id: string, name: string, color: string, isVisible: bool, isFromData: bool)

  datatype MainCategory = MainCategory(id: string, name: string, icon: string, color: string,
                                       subCategories: seq<SubCategory>)

  type Categories = seq<MainCategory>

  /** Japanese category name to English id and back. */
  const CATEGORY_MAPPING: map<string, string> := map[
    "食費" := "food", "住居費" := "housing", "交通費" := "transport", "娯楽費" := "entertainment",
    "food" := "食費", "housing" := "住居費", "transport" := "交通費", "entertainment" := "娯楽費"]

  /** The palette new subcategories take their colours from, in turn. */
  const DEFAULT_COLORS: seq<string> := [
    "bg-red-400", "bg-red-500", "bg-red-600",
    "bg-orange-400", "bg-orange-500", "bg-orange-600",
    "bg-yellow-400", "bg-yellow-500", "bg-yellow-600",
    "bg-green-400", "bg-green-500", "bg-green-600",
    "bg-blue-400", "bg-blue-500", "bg-blue-600",
    "bg-purple-400", "bg-purple-500", "bg-purple-600",
    "bg-pink-400", "bg-pink-500", "bg-pink-600",
    "bg-gray-400", "bg-gray-500", "bg-gray-600"]

  /** The colour of the sub at `position` in its category: the palette, wrapping round. */
  function PaletteColor(position: nat): string {
    DEFAULT_COLORS[position % |DEFAULT_COLORS|]
  }

  /** `mainCategories.find((cat) => cat.id === mainCategoryId)`. */
  function FindCategory(cats: Categories, mainId: string): (r: Option<MainCategory>)
    ensures r.Some? ==> r.value in cats && r.value.id == mainId
    ensures r.Some? ==> exists i :: 0 <= i < |cats| && cats[i] == r.value && forall j :: 0 <= j < i ==> cats[j].id != mainId
    ensures r.None? <==> forall i :: 0 <= i < |cats| ==> cats[i].id != mainId
  {
    match FindIndex(cats, (c: MainCategory) => c.id == mainId)
    case Some(i) => Some(cats[i])
    case None => None
  }

  /** `subCategories.find((sub) => sub.id === subCategoryId)`. */
  function FindSub(subs: seq<SubCategory>, subId: string): (r: Option<SubCategory>)
    ensures r.Some? ==> r.value in subs && r.value.id == subId
    ensures r.Some? ==> exists j :: 0 <= j < |subs| && subs[j] == r.value && forall k :: 0 <= k < j ==> subs[k].id != subId
    ensures r.None? <==> forall j :: 0 <= j < |subs| ==> subs[j].id != subId
  {
    match FindIndex(subs, (s: SubCategory) => s.id == subId)
    case Some(j) => Some(subs[j])
    case None => None
  }

  /** The subcategory the selection-clearing code finds: first main with the id, then its first sub with the id. */
  function Lookup(cats: Categories, mainId: string, subId: string): Option<SubCategory> {
    match FindCategory(cats, mainId)
    case Some(c) => FindSub(c.subCategories, subId)
    case None => None
  }

  // ---------------------------------------------------------------------
  // toggleSubCategoryVisibility

  function Flip(sub: SubCategory, subId: string): SubCategory {
    if sub.id == subId then sub.(isVisible := !sub.isVisible) else sub
  }

  function FlipAll(subs: seq<SubCategory>, subId: string): (r: seq<SubCategory>)
    ensures |r| == |subs|
  {
    seq(|subs|, j requires 0 <= j < |subs| => Flip(subs[j], subId))
  }

  /**
   * The category-list update of `toggleSubCategoryVisibility`: every sub
   * with the id, inside every main with the id, has its visibility flipped.
   */
  function ToggleVisibility(cats: Categories, mainId: string, subId: string): (r: Categories)
    ensures |r| == |cats|
    ensures forall i :: 0 <= i < |cats| && cats[i].id != mainId ==> r[i] == cats[i]
    ensures forall i :: 0 <= i < |cats| && cats[i].id == mainId ==> (
      && r[i].(subCategories := cats[i].subCategories) == cats[i]
      && |r[i].subCategories| == |cats[i].subCategories|
      && forall j :: 0 <= j < |cats[i].subCategories| ==> (
        var before, after := cats[i].subCategories[j], r[i].subCategories[j];
        if before.id == subId then after == before.(isVisible := !before.isVisible) else after == before))
  {
    seq(|cats|, i requires 0 <= i < |cats| =>
      if cats[i].id == mainId then cats[i].(subCategories := FlipAll(cats[i].subCategories, subId)) else cats[i])
  }

  /** Ids that name no subcategory of a matching main change nothing. */
  lemma ToggleUnknownIsIdentity(cats: Categories, mainId: string, subId: string)
    requires forall i, j :: (0 <= i < |cats| && cats[i].id == mainId && 0 <= j < |cats[i].subCategories|
      ==> cats[i].subCategories[j].id != subId)
    ensures ToggleVisibility(cats, mainId, subId) == cats
  {
    var r := ToggleVisibility(cats, mainId, subId);
    forall i | 0 <= i < |cats| ensures r[i] == cats[i] {
      if cats[i].id == mainId {
        assert r[i].subCategories == cats[i].subCategories;
      }
    }
  }

  /** Toggling the same pair twice gives back the original list. */
  lemma ToggleTwiceRestores(cats: Categories, mainId: string, subId: string)
    ensures ToggleVisibility(ToggleVisibility(cats, mainId, subId), mainId, subId) == cats
  {
    var once := ToggleVisibility(cats, mainId, subId);
    var twice := ToggleVisibility(once, mainId, subId);
    forall i | 0 <= i < |cats| ensures twice[i] == cats[i] {
      if cats[i].id == mainId {
        assert twice[i].subCategories == cats[i].subCategories;
      }
    }
  }

  /** After a toggle, the looked-up subcategory is the old one with its visibility flipped. */
  lemma LookupAfterToggle(cats: Categories, mainId: string, subId: string)
    ensures Lookup(ToggleVisibility(cats, mainId, subId), mainId, subId)
      == match Lookup(cats, mainId, subId) case Some(s) => Some(Flip(s, subId)) case None => None
  {
    var t := ToggleVisibility(cats, mainId, subId);
    FindIndexCongruent(cats, (c: MainCategory) => c.id == mainId, t, (c: MainCategory) => c.id == mainId);
    match FindIndex(cats, (c: MainCategory) => c.id == mainId)
    case None =>
    case Some(i) =>
      var subs := cats[i].subCategories;
      assert t[i].subCategories == FlipAll(subs, subId);
      FindIndexCongruent(subs, (s: SubCategory) => s.id == subId,
                         FlipAll(subs, subId), (s: SubCategory) => s.id == subId);
  }

  /** The selection: a main id ("" for all) and an optional sub id. */
  datatype Selection = Selection(main: string, sub: Option<string>)

  /** A sub is selected when the selection holds a truthy (non-empty) sub id. */
  predicate SubSelected(selection: Selection) {
    selection.sub.Some? && selection.sub.value != ""
  }

  /**
   * The selection update of `toggleSubCategoryVisibility` as written: the
   * sub is looked up in the list from before the toggle, and the selection
   * is cleared when that sub was hidden, that is, when the toggle shows it.
   */
  function ClearSelectionAsWritten(cats: Categories, selectedSub: Option<string>, mainId: string, subId: string)
    : (r: Option<string>)
    ensures r != selectedSub ==> r.None? && selectedSub == Some(subId)
  {
    if selectedSub == Some(subId) then
      match Lookup(cats, mainId, subId)
      case Some(sub) => if !sub.isVisible then None else selectedSub
      case None => selectedSub
    else selectedSub
  }

  /** Corrected: the selection is cleared when the toggle hides the selected sub. */
  function ClearSelection(cats: Categories, selectedSub: Option<string>, mainId: string, subId: string)
    : (r: Option<string>)
    ensures r != selectedSub ==> r.None? && selectedSub == Some(subId)
  {
    if selectedSub == Some(subId) then
      match Lookup(cats, mainId, subId)
      case Some(sub) => if sub.isVisible then None else selectedSub
      case None => selectedSub
    else selectedSub
  }

  /**
   * As written, hiding the selected sub keeps it selected, and showing it
   * deselects it.
   */
  lemma ClearSelectionAsWrittenInverted(cats: Categories, mainId: string, subId: string)
    requires Lookup(cats, mainId, subId).Some?
    ensures var after := Lookup(ToggleVisibility(cats, mainId, subId), mainId, subId);
      && after.Some?
      && (ClearSelectionAsWritten(cats, Some(subId), mainId, subId) == Some(subId) <==> !after.value.isVisible)
  {
    LookupAfterToggle(cats, mainId, subId);
  }

  /** A concrete instance: hiding the selected "dining" leaves it selected. */
  lemma HiddenSubStaysSelected()
    ensures var cats := [MainCategory("food", "食費", "utensils", "bg-orange-500",
                                      [SubCategory("dining", "外食", "bg-orange-400", true, false)])];
      && Lookup(ToggleVisibility(cats, "food", "dining"), "food", "dining").value.isVisible == false
      && ClearSelectionAsWritten(cats, Some("dining"), "food", "dining") == Some("dining")
  {
    var cats := [MainCategory("food", "食費", "utensils", "bg-orange-500",
                              [SubCategory("dining", "外食", "bg-orange-400", true, false)])];
    LookupAfterToggle(cats, "food", "dining");
  }

  /**
   * With the correction, a selected sub that the toggle touches stays
   * selected exactly when it is visible afterwards.
   */
  lemma ClearSelectionKeepsOnlyVisible(cats: Categories, mainId: string, subId: string)
    requires Lookup(cats, mainId, subId).Some?
    ensures var after := Lookup(ToggleVisibility(cats, mainId, subId), mainId, subId);
      && after.Some?
      && (ClearSelection(cats, Some(subId), mainId, subId) == Some(subId) <==> after.value.isVisible)
  {
    LookupAfterToggle(cats, mainId, subId);
  }

  /** The store the provider holds. */
  datatype Store = Store(categories: Categories, selection: Selection)

  /**
   * `toggleSubCategoryVisibility(mainId, subId)` as written: the lists are
   * updated, and a selected sub the toggle touches is deselected exactly
   * when it is visible afterwards, that is, when the toggle showed it.
   */
  function Toggle(store: Store, mainId: string, subId: string): (r: Store)
    ensures r.categories == ToggleVisibility(store.categories, mainId, subId)
    ensures r.selection.main == store.selection.main
    ensures r.selection.sub != store.selection.sub ==> r.selection.sub.None? && store.selection.sub == Some(subId)
    ensures store.selection.sub == Some(subId) && Lookup(store.categories, mainId, subId).Some? ==>
      && Lookup(r.categories, mainId, subId).Some?
      && (r.selection.sub.None? <==> Lookup(r.categories, mainId, subId).value.isVisible)
  {
    LookupAfterToggle(store.categories, mainId, subId);
    Store(ToggleVisibility(store.categories, mainId, subId),
          store.selection.(sub := ClearSelectionAsWritten(store.categories, store.selection.sub, mainId, subId)))
  }

  /**
   * Corrected: a selected sub the toggle touches is deselected exactly when
   * the toggle hides it, so a selected sub is never hidden afterwards.
   */
  function ToggleCorrected(store: Store, mainId: string, subId: string): (r: Store)
    ensures r.categories == ToggleVisibility(store.categories, mainId, subId)
    ensures r.selection.main == store.selection.main
    ensures r.selection.sub != store.selection.sub ==> r.selection.sub.None? && store.selection.sub == Some(subId)
    ensures store.selection.sub == Some(subId) && Lookup(store.categories, mainId, subId).Some? ==>
      && Lookup(r.categories, mainId, subId).Some?
      && (r.selection.sub.None? <==> !Lookup(r.categories, mainId, subId).value.isVisible)
    ensures r.selection.sub == Some(subId) ==> (Lookup(r.categories, mainId, subId).None?
      || Lookup(r.categories, mainId, subId).value.isVisible)
  {
    LookupAfterToggle(store.categories, mainId, subId);
    Store(ToggleVisibility(store.categories, mainId, subId),
          store.selection.(sub := ClearSelection(store.categories, store.selection.sub, mainId, subId)))
  }

  /**
   * A concrete store: toggling the selected, visible "dining" hides it and,
   * as written, keeps it selected; the corrected toggle deselects it.
   */
  lemma ToggleLeavesHiddenSubSelected()
    ensures var store := Store([MainCategory("food", "食費", "utensils", "bg-orange-500",
                                             [SubCategory("dining", "外食", "bg-orange-400", true, false)])],
                               Selection("food", Some("dining")));
      var r := Toggle(store, "food", "dining");
      && r.selection.sub == Some("dining")
      && !Lookup(r.categories, "food", "dining").value.isVisible
      && ToggleCorrected(store, "food", "dining").selection.sub.None?
  {
    var cats := [MainCategory("food", "食費", "utensils", "bg-orange-500",
                              [SubCategory("dining", "外食", "bg-orange-400", true, false)])];
    LookupAfterToggle(cats, "food", "dining");
  }

  // ---------------------------------------------------------------------
  // addSubCategoriesFromData

  /** `CATEGORY_MAPPING[category.name] || category.id`. */
  function CategoryKey(c: MainCategory): string {
    if c.name in CATEGORY_MAPPING && CATEGORY_MAPPING[c.name] != "" then CATEGORY_MAPPING[c.name] else c.id
  }

  /**
   * `map[key] || map[name] || map[id] || []`: an array, even an empty one,
   * is truthy, so the first key present decides.
   */
  function FromData(c: MainCategory, m: map<string, seq<string>>): (r: seq<string>)
    ensures CategoryKey(c) in m ==> r == m[CategoryKey(c)]
    ensures CategoryKey(c) !in m && c.name in m ==> r == m[c.name]
    ensures r != [] ==> (CategoryKey(c) in m && r == m[CategoryKey(c)]) || (c.name in m && r == m[c.name]) || (c.id in m && r == m[c.id])
    ensures CategoryKey(c) !in m && c.name !in m && c.id !in m ==> r == []
  {
    var key := CategoryKey(c);
    if key in m then m[key]
    else if c.name in m then m[c.name]
    else if c.id in m then m[c.id]
    else []
  }

  function SubNames(subs: seq<SubCategory>): set<string> {
    set s | s in subs :: s.name
  }

  /** The filter: non-empty, not blank, and not already a sub name once trimmed. */
  predicate Accepts(existing: set<string>, raw: string) {
    raw != "" && Trim(raw) != "" && Trim(raw) !in existing
  }

  /** The new subcategory for the `index`-th accepted name. */
  function NewSub(c: MainCategory, raw: string, index: nat, now: nat): (s: SubCategory)
    ensures s.isVisible && s.isFromData && s.name == Trim(raw)
    ensures s.color == PaletteColor(|c.subCategories| + index)
    ensures |s.id| > |c.id| && s.id[..|c.id| + 1] == c.id + "-"
  {
    SubCategory(
      c.id + "-" + CollapseSpaces(Trim(raw)) + "-" + NatToString(now) + "-" + NatToString(index),
      Trim(raw),
      PaletteColor(|c.subCategories| + index),
      true, true)
  }

  /** The names `filter` lets through, in input order. */
  function Accepted(names: seq<string>, existing: set<string>): (r: seq<string>)
    ensures forall raw :: raw in r <==> raw in names && Accepts(existing, raw)
  {
    Filter(names, (raw: string) => Accepts(existing, raw))
  }

  /** The new subcategories, one per accepted name, numbered from 0. */
  function Added(c: MainCategory, accepted: seq<string>, now: nat): (r: seq<SubCategory>)
    ensures |r| == |accepted|
    ensures forall k :: 0 <= k < |r| ==> r[k] == NewSub(c, accepted[k], k, now)
  {
    seq(|accepted|, k requires 0 <= k < |accepted| => NewSub(c, accepted[k], k, now))
  }

  /** The new subcategories are named by the trimmed accepted names, in order. */
  lemma AddedNames(c: MainCategory, accepted: seq<string>, now: nat)
    ensures forall k :: 0 <= k < |accepted| ==> Added(c, accepted, now)[k].name == Trim(accepted[k])
  {
  }

  /** One category's update. */
  function AddToCategory(c: MainCategory, m: map<string, seq<string>>, now: nat): (r: MainCategory)
    ensures r.(subCategories := c.subCategories) == c
    ensures |FromData(c, m)| == 0 ==> r == c
    ensures |c.subCategories| <= |r.subCategories| && r.subCategories[..|c.subCategories|] == c.subCategories
  {
    var names := FromData(c, m);
    if |names| == 0 then c
    else c.(subCategories := c.subCategories + Added(c, Accepted(names, SubNames(c.subCategories)), now))
  }

  /** Each accepted name comes from the input and passes the filter. */
  lemma AcceptedAt(names: seq<string>, existing: set<string>, index: nat)
    requires index < |Accepted(names, existing)|
    ensures Accepted(names, existing)[index] in names && Accepts(existing, Accepted(names, existing)[index])
  {
    assert Accepted(names, existing)[index] in Accepted(names, existing);
  }

  /** The subs `AddToCategory` appends after the existing ones. */
  function AppendedSubs(c: MainCategory, m: map<string, seq<string>>, now: nat): seq<SubCategory> {
    AddToCategory(c, m, now).subCategories[|c.subCategories|..]
  }

  /** The `j`-th appended sub is built from an accepted input name. */
  lemma AddedSubFrom(c: MainCategory, m: map<string, seq<string>>, now: nat, j: nat) returns (raw: string)
    requires j < |AppendedSubs(c, m, now)|
    ensures raw in FromData(c, m) && Accepts(SubNames(c.subCategories), raw)
    ensures AppendedSubs(c, m, now)[j] == NewSub(c, raw, j, now)
  {
    var names := FromData(c, m);
    var existing := SubNames(c.subCategories);
    var accepted := Accepted(names, existing);
    raw := accepted[j];
    assert AppendedSubs(c, m, now) == Added(c, accepted, now);
    AcceptedAt(names, existing, j);
  }

  /** The input names, each trimmed. */
  function TrimmedNames(names: seq<string>): set<string> {
    set raw | raw in names :: Trim(raw)
  }

  /** The `j`-th appended sub: its fields and the input name it comes from. */
  lemma AddedSubAt(c: MainCategory, m: map<string, seq<string>>, now: nat, j: nat)
    requires j < |AppendedSubs(c, m, now)|
    ensures var s := AppendedSubs(c, m, now)[j];
      && s.isVisible && s.isFromData && s.name != "" && s.name !in SubNames(c.subCategories)
      && s.color == PaletteColor(|c.subCategories| + j)
      && s.name in TrimmedNames(FromData(c, m))
  {
    var raw := AddedSubFrom(c, m, now, j);
    NewSubFrom(c, raw, j, now, FromData(c, m));
    NewSubColor(c, raw, j, now);
  }

  /** The colour `NewSub` gives, as a fact on its own, apart from the name reasoning. */
  lemma NewSubColor(c: MainCategory, raw: string, index: nat, now: nat)
    ensures NewSub(c, raw, index, now).color == PaletteColor(|c.subCategories| + index)
  {
  }

  /** A sub built from an accepted input name is a visible, new, non-blank sub named after an input. */
  lemma NewSubFrom(c: MainCategory, raw: string, index: nat, now: nat, names: seq<string>)
    requires raw in names && Accepts(SubNames(c.subCategories), raw)
    ensures var s := NewSub(c, raw, index, now);
      && s.isVisible && s.isFromData && s.name != "" && s.name !in SubNames(c.subCategories)
      && s.name in TrimmedNames(names)
  {
    assert Trim(raw) in TrimmedNames(names);
  }

  /**
   * Every appended sub is visible, from data, named by a trimmed input name
   * that no existing sub had, and coloured from the palette by its position
   * in the category.
   */
  lemma AddedSubs(c: MainCategory, m: map<string, seq<string>>, now: nat)
    ensures var added := AppendedSubs(c, m, now);
      forall j :: 0 <= j < |added| ==> (
        var s := added[j];
        && s.isVisible && s.isFromData && s.name != "" && s.name !in SubNames(c.subCategories)
        && s.color == PaletteColor(|c.subCategories| + j)
        && s.name in TrimmedNames(FromData(c, m)))
  {
    var added := AppendedSubs(c, m, now);
    forall j | 0 <= j < |added|
      ensures var s := added[j];
        && s.isVisible && s.isFromData && s.name != "" && s.name !in SubNames(c.subCategories)
        && s.color == PaletteColor(|c.subCategories| + j)
        && s.name in TrimmedNames(FromData(c, m))
    {
      AddedSubAt(c, m, now, j);
    }
  }

  /** A name an existing sub has is still a sub name afterwards. */
  lemma ExistingNameKept(c: MainCategory, m: map<string, seq<string>>, now: nat, name: string)
    requires name in SubNames(c.subCategories)
    ensures name in SubNames(AddToCategory(c, m, now).subCategories)
  {
    var r := AddToCategory(c, m, now);
    var s :| s in c.subCategories && s.name == name;
    var idx :| 0 <= idx < |c.subCategories| && c.subCategories[idx] == s;
    assert r.subCategories[..|c.subCategories|][idx] == s;
    assert r.subCategories[idx] == s;
  }

  /** A non-blank input name no existing sub has becomes, trimmed, the name of a new sub. */
  lemma AcceptedNameAdded(c: MainCategory, m: map<string, seq<string>>, now: nat, raw: string)
    requires raw in FromData(c, m) && Trim(raw) != "" && Trim(raw) !in SubNames(c.subCategories)
    ensures Trim(raw) in SubNames(AddToCategory(c, m, now).subCategories)
  {
    var names := FromData(c, m);
    var accepted := Accepted(names, SubNames(c.subCategories));
    var added := Added(c, accepted, now);
    assert raw in accepted;
    var k :| 0 <= k < |accepted| && accepted[k] == raw;
    AddedNames(c, accepted, now);
    var r := AddToCategory(c, m, now);
    assert r.subCategories == c.subCategories + added;
    assert r.subCategories[|c.subCategories| + k] == added[k];
  }

  /** Afterwards, every non-blank input name is the name of some sub. */
  lemma AddCoversNames(c: MainCategory, m: map<string, seq<string>>, now: nat)
    ensures forall raw :: raw in FromData(c, m) && Trim(raw) != "" ==> Trim(raw) in SubNames(AddToCategory(c, m, now).subCategories)
  {
    var r := AddToCategory(c, m, now);
    var names := FromData(c, m);
    var existing := SubNames(c.subCategories);
    forall raw | raw in names && Trim(raw) != "" ensures Trim(raw) in SubNames(r.subCategories) {
      if Trim(raw) in existing {
        ExistingNameKept(c, m, now, Trim(raw));
      } else {
        AcceptedNameAdded(c, m, now, raw);
      }
    }
  }

  /** Afterwards, every sub name is an existing one or a trimmed input name. */
  lemma AddKeepsOrNamesData(c: MainCategory, m: map<string, seq<string>>, now: nat)
    ensures SubNames(AddToCategory(c, m, now).subCategories) <= SubNames(c.subCategories) + TrimmedNames(FromData(c, m))
  {
    var after := AddToCategory(c, m, now).subCategories;
    var n := |c.subCategories|;
    forall name | name in SubNames(after) ensures name in SubNames(c.subCategories) + TrimmedNames(FromData(c, m)) {
      var j :| 0 <= j < |after| && after[j].name == name;
      if j < n {
        assert after[..n][j] == after[j];
        assert after[j] in c.subCategories;
      } else {
        assert AppendedSubs(c, m, now)[j - n] == after[j];
        AddedSubAt(c, m, now, j - n);
      }
    }
  }

  /** `addSubCategoriesFromData(map)`: every category updated independently, order kept. */
  function AddSubCategoriesFromData(cats: Categories, m: map<string, seq<string>>, now: nat): (r: Categories)
    ensures |r| == |cats|
    ensures forall i :: 0 <= i < |cats| ==> r[i].id == cats[i].id && r[i].name == cats[i].name
  {
    seq(|cats|, i requires 0 <= i < |cats| => AddToCategory(cats[i], m, now))
  }

  /** Adding the same data to one category again, at any time, adds nothing more. */
  lemma AddToCategoryTwice(c: MainCategory, m: map<string, seq<string>>, now: nat, later: nat)
    ensures AddToCategory(AddToCategory(c, m, now), m, later) == AddToCategory(c, m, now)
  {
    var once := AddToCategory(c, m, now);
    assert FromData(once, m) == FromData(c, m);
    var names := FromData(c, m);
    if |names| > 0 {
      AddCoversNames(c, m, now);
      var existing := SubNames(once.subCategories);
      forall i | 0 <= i < |names| ensures !Accepts(existing, names[i]) {
        assert names[i] in names;
      }
      FilterKeepsNone(names, (raw: string) => Accepts(existing, raw));
      assert once.subCategories + [] == once.subCategories;
    }
  }

  /** Adding the same data again, at any time, adds nothing more. */
  lemma AddTwiceAddsNothing(cats: Categories, m: map<string, seq<string>>, now: nat, later: nat)
    ensures AddSubCategoriesFromData(AddSubCategoriesFromData(cats, m, now), m, later)
      == AddSubCategoriesFromData(cats, m, now)
  {
    var once := AddSubCategoriesFromData(cats, m, now);
    forall i | 0 <= i < |cats| ensures AddToCategory(once[i], m, later) == once[i] {
      AddToCategoryTwice(cats[i], m, now, later);
    }
  }

  /** A category without subs, given a non-empty list under its own key, gains the subs of the accepted names. */
  lemma AddUnderOwnKey(c: MainCategory, names: seq<string>, now: nat)
    requires c.subCategories == [] && |names| > 0
    ensures AddToCategory(c, map[CategoryKey(c) := names], now).subCategories == Added(c, Accepted(names, {}), now)
  {
    assert FromData(c, map[CategoryKey(c) := names]) == names;
    assert SubNames(c.subCategories) == {};
  }

  /** Names the filter accepts one by one are all let through, repeats included. */
  lemma AcceptedKeepsAll(names: seq<string>, existing: set<string>)
    requires forall k :: 0 <= k < |names| ==> Accepts(existing, names[k])
    ensures Accepted(names, existing) == names
  {
    FilterKeepsAll(names, (raw: string) => Accepts(existing, raw));
  }

  /** Repeats within one list are not merged: both copies are added. */
  lemma RepeatsWithinOneListAreKept(c: MainCategory, raw: string, now: nat)
    requires c.subCategories == [] && Trim(raw) != ""
    ensures var r := AddToCategory(c, map[CategoryKey(c) := [raw, raw]], now);
      |r.subCategories| == 2 && r.subCategories[0].name == r.subCategories[1].name == Trim(raw)
  {
    var names := [raw, raw];
    AddUnderOwnKey(c, names, now);
    AcceptedKeepsAll(names, {});
    AddedNames(c, names, now);
  }

  /** A present but empty list under the mapped key hides a list stored under the name. */
  lemma EmptyListShadowsLaterKeys()
    ensures var c := MainCategory("food", "食費", "utensils", "bg-orange-500", []);
      AddToCategory(c, map["food" := [], "食費" := ["外食"]], 0) == c
  {
    var c := MainCategory("food", "食費", "utensils", "bg-orange-500", []);
    assert CategoryKey(c) == "food";
  }

  // ---------------------------------------------------------------------
  // getVisibleSubCategories

  /** `r` is the visible subs of `subs` at positions `idx`, in order; see `SelectsInOrder`. */
  ghost predicate VisibleInOrder(r: seq<SubCategory>, subs: seq<SubCategory>, idx: seq<nat>) {
    SelectsInOrder(r, subs, (s: SubCategory) => s.isVisible, idx)
  }

  /** The visible subs of a list (`filter((sub) => sub.isVisible)`). */
  function Visible(subs: seq<SubCategory>): seq<SubCategory> {
    Filter(subs, (s: SubCategory) => s.isVisible)
  }

  lemma VisibleSelects(subs: seq<SubCategory>)
    ensures exists idx :: VisibleInOrder(Visible(subs), subs, idx)
  {
    FilterSelects(subs, (s: SubCategory) => s.isVisible);
    var idx :| SelectsInOrder(Visible(subs), subs, (s: SubCategory) => s.isVisible, idx);
    assert VisibleInOrder(Visible(subs), subs, idx);
  }

  /**
   * `getVisibleSubCategories(mainId)`: the visible subs of the first main
   * with the id, in their original order and with repeats, or [].
   */
  function GetVisibleSubCategories(cats: Categories, mainId: string): (r: seq<SubCategory>)
    ensures FindCategory(cats, mainId).None? ==> r == []
    ensures FindCategory(cats, mainId).Some? ==> forall s :: s in r <==> s in FindCategory(cats, mainId).value.subCategories && s.isVisible
    ensures FindCategory(cats, mainId).Some? ==>
      exists idx :: VisibleInOrder(r, FindCategory(cats, mainId).value.subCategories, idx)
  {
    match FindCategory(cats, mainId)
    case Some(c) =>
      VisibleSelects(c.subCategories);
      Visible(c.subCategories)
    case None => []
  }

  /** A toggled sub of the first matching main is listed as visible afterwards exactly when it was hidden before. */
  lemma ToggleMovesInAndOutOfVisible(cats: Categories, mainId: string, subId: string)
    requires Lookup(cats, mainId, subId).Some?
    ensures var before := Lookup(cats, mainId, subId).value;
      var after := before.(isVisible := !before.isVisible);
      after in GetVisibleSubCategories(ToggleVisibility(cats, mainId, subId), mainId) <==> !before.isVisible
  {
    LookupAfterToggle(cats, mainId, subId);
    var t := ToggleVisibility(cats, mainId, subId);
    var before := Lookup(cats, mainId, subId).value;
    var found := FindCategory(t, mainId).value;
    assert FindSub(found.subCategories, subId) == Some(Flip(before, subId));
  }
}
