/**
 * The parameter names the function knows and the validation strategy
 * registered for each of them.
 */
module SsmVarStrategy {
  import opened Base
  import SsmVarPolicy

  /** The `SsmVar` enum: one member, whose value is its own name. */
  datatype SsmVar = CATEGORY_LIST

  function Name(v: SsmVar): string {
    match v
    case CATEGORY_LIST => "CATEGORY_LIST"
  }

  /** The strategies of the strategy map. */
  datatype Strategy = CategoryListValidationStrategy

  /**
   * `strategy.checkSsmVar(value)`: a fresh policy object per call, so no
   * state carries over; the one strategy accepts exactly the comma-separated
   * lists.
   */
  predicate CheckSsmVar(st: Strategy, value: Option<string>)
    ensures CheckSsmVar(st, value) <==> SsmVarPolicy.Check(SsmVarPolicy.CommaSeparated, value)
  {
    match st
    case CategoryListValidationStrategy => SsmVarPolicy.CheckCategoryList(value)
  }

  /** `strategyMap[key]`: defined exactly for the names of the enum's members. */
  function StrategyFor(key: string): (r: Option<Strategy>)
    ensures r.Some? <==> exists v: SsmVar :: Name(v) == key
    ensures key == "CATEGORY_LIST" ==> r == Some(CategoryListValidationStrategy)
  {
    if key == Name(CATEGORY_LIST) then Some(CategoryListValidationStrategy) else None
  }
}
