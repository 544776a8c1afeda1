/**
 * The `subscriptions` table, as the webhooks write it and the entitlement check reads it.
 * Upserts are keyed on `user_id`, so a table built only by them holds at most one row
 * per user (`UniqueUsers`).
 */
module SubscriptionTable {
  import opened Wrappers

  /** One row; `periodEnd` is the `current_period_end` timestamp in milliseconds. */
  datatype Row = Row(
    userId: string,
    customerId: Option<string>,
    subscriptionId: Option<string>,
    status: string,
    periodEnd: Option<int>)

  type Table = seq<Row>

  /** The uniqueness that `user_id` as upsert key provides. */
  predicate UniqueUsers(t: Table) {
    forall i, j :: 0 <= i < j < |t| ==> t[i].userId != t[j].userId
  }

  predicate HasUser(t: Table, user: string) {
    exists i :: 0 <= i < |t| && t[i].userId == user
  }

  /** Every row of `user` is replaced by `row`; other rows stay where they are. */
  function ReplaceUser(t: Table, row: Row): (r: Table)
    ensures |r| == |t|
    ensures forall i :: 0 <= i < |t| ==> r[i] == (if t[i].userId == row.userId then row else t[i])
  {
    if t == [] then [] else [if t[0].userId == row.userId then row else t[0]] + ReplaceUser(t[1..], row)
  }

  /**
   * `upsert(row)` with `user_id` as conflict key: the user's row becomes `row` and every
   * other row survives; the table grows by one exactly when the user had no row.
   */
  function Upsert(t: Table, row: Row): (r: Table)
    ensures row in r
    ensures forall x :: x in t && x.userId != row.userId ==> x in r
    ensures forall x :: x in r ==> x == row || (x in t && x.userId != row.userId)
    ensures |r| == if HasUser(t, row.userId) then |t| else |t| + 1
    ensures UniqueUsers(t) ==> UniqueUsers(r)
  {
    if HasUser(t, row.userId) then
      var r := ReplaceUser(t, row);
      var i :| 0 <= i < |t| && t[i].userId == row.userId;
      assert r[i] == row;
      forall x | x in t && x.userId != row.userId ensures x in r {
        var k :| 0 <= k < |t| && t[k] == x;
        assert r[k] == x;
      }
      r
    else
      t + [row]
  }

  /**
   * `update({status, current_period_end}).eq('stripe_subscription_id', id)`: every row
   * whose subscription id equals `id` takes the new status and period end, and nothing
   * else changes. A row without a subscription id never matches, as SQL `NULL = id` is
   * never true.
   */
  function UpdateBySubscription(t: Table, id: string, status: string, periodEnd: int): (r: Table)
    ensures |r| == |t|
    ensures forall i :: 0 <= i < |t| && t[i].subscriptionId != Some(id) ==> r[i] == t[i]
    ensures forall i :: 0 <= i < |t| && t[i].subscriptionId == Some(id) ==>
      r[i] == t[i].(status := status, periodEnd := Some(periodEnd))
  {
    if t == [] then []
    else
      var head := if t[0].subscriptionId == Some(id) then t[0].(status := status, periodEnd := Some(periodEnd)) else t[0];
      [head] + UpdateBySubscription(t[1..], id, status, periodEnd)
  }

  /** Updating by subscription id keeps every row's user, so it keeps users unique. */
  lemma UpdateKeepsUniqueUsers(t: Table, id: string, status: string, periodEnd: int)
    requires UniqueUsers(t)
    ensures UniqueUsers(UpdateBySubscription(t, id, status, periodEnd))
  {
    var r := UpdateBySubscription(t, id, status, periodEnd);
    assert forall i :: 0 <= i < |t| ==> r[i].userId == t[i].userId;
  }
}
