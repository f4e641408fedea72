/**
 * `HandleDynamo.write`: stores the monthly sums as one item. The table
 * client and the id generator are parameters.
 */
module HandleDynamo {
  import opened Base
  import opened Js
  import opened BackErrors
  import CalcExpense

  /** An attribute of the stored item. */
  datatype Attr = S(s: string) | N(n: Number)

  type Item = map<string, Attr>

  /** The user id every item is stored under; the caller's identity is not used. */
  const FIXED_USER_ID: string := "user1"

  /**
   * `{ id, userId: "user1", expenseDate, ...sumByCategory }`: the spread comes
   * last, so a sum key named like a fixed attribute overrides it.
   */
  function BuildItem(sums: CalcExpense.Sums, expenseDate: string, id: string): (item: Item)
    ensures item.Keys == {"id", "userId", "expenseDate"} + sums.Keys
    ensures forall k :: k in sums ==> item[k] == N(sums[k])
    ensures "id" !in sums ==> item["id"] == S(id)
    ensures "userId" !in sums ==> item["userId"] == S(FIXED_USER_ID)
    ensures "expenseDate" !in sums ==> item["expenseDate"] == S(expenseDate)
  {
    map["id" := S(id), "userId" := S(FIXED_USER_ID), "expenseDate" := S(expenseDate)]
      + map k | k in sums :: N(sums[k])
  }

  /**
   * `write(sumByCategory, expenseDate)`, decorated. The handler passes the
   * identity id as a third argument, which the method does not declare.
   */
  function Write(put: Item -> Outcome<()>, sums: CalcExpense.Sums, expenseDate: string,
                 identityId: string, id: string): (r: Outcome<()>)
    ensures r.Ok? <==> put(BuildItem(sums, expenseDate, id)).Ok?
    ensures r.Err? ==> r.error.JsError? && r.error.kind == AppError("write")
  {
    Decorate("write", put(BuildItem(sums, expenseDate, id)))
  }

  /** The stored item, and so the outcome, does not depend on the identity id. */
  lemma WriteIgnoresIdentity(put: Item -> Outcome<()>, sums: CalcExpense.Sums, expenseDate: string,
                             a: string, b: string, id: string)
    ensures Write(put, sums, expenseDate, a, id) == Write(put, sums, expenseDate, b, id)
  {
  }

  /** For the bucket sums of the aggregator, every item has user "user1" and the month. */
  lemma BucketItemsAreUser1(sums: CalcExpense.Sums, expenseDate: string, id: string)
    requires sums.Keys <= CalcExpense.BUCKETS
    ensures BuildItem(sums, expenseDate, id)["userId"] == S(FIXED_USER_ID)
    ensures BuildItem(sums, expenseDate, id)["expenseDate"] == S(expenseDate)
    ensures BuildItem(sums, expenseDate, id)["id"] == S(id)
  {
  }
}
