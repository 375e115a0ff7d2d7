/** The order in which a search over `property.agreement` returns its
    records: `_order = 'start_date desc'`, latest start first. The database
    orders agreements with the same start date as it likes, so the crons
    that loop over such a search take the order as a parameter, described
    by `StartDateOrder`; `ByStartDate` builds one such order, which shows
    that every table has one. */
module AgreementOrder {
  import opened Schema

  /** Every entry of `order` is the id of an agreement. */
  predicate IdsOf(agreements: seq<Agreement>, order: seq<nat>)
  {
    forall k :: 0 <= k < |order| ==> order[k] < |agreements|
  }

  /** No id twice, and a later entry never starts after an earlier one. */
  predicate LatestStartFirst(agreements: seq<Agreement>, order: seq<nat>)
    requires IdsOf(agreements, order)
  {
    forall k1, k2 :: 0 <= k1 < k2 < |order| ==>
      order[k1] != order[k2] && agreements[order[k1]].startDate >= agreements[order[k2]].startDate
  }

  /** Every agreement appears. */
  predicate HasAllIds(agreements: seq<Agreement>, order: seq<nat>)
  {
    forall id :: 0 <= id < |agreements| ==> id in order
  }

  predicate StartDateOrder(agreements: seq<Agreement>, order: seq<nat>)
  {
    IdsOf(agreements, order) && LatestStartFirst(agreements, order) && HasAllIds(agreements, order)
  }

  /** `id` placed before the first entry that starts no later than it. */
  function InsertId(agreements: seq<Agreement>, order: seq<nat>, id: nat): (r: seq<nat>)
    requires id < |agreements| && IdsOf(agreements, order)
    ensures |r| == |order| + 1 && IdsOf(agreements, r)
    ensures forall x :: x in r <==> x == id || x in order
  {
    if order == [] then [id]
    else if agreements[id].startDate >= agreements[order[0]].startDate then [id] + order
    else
      assert forall x :: x in order <==> x == order[0] || x in order[1..];
      [order[0]] + InsertId(agreements, order[1..], id)
  }

  /** Inserting a new id keeps the order latest start first. */
  lemma {:induction false} InsertIdOrdered(agreements: seq<Agreement>, order: seq<nat>, id: nat)
    requires id < |agreements| && IdsOf(agreements, order)
    requires LatestStartFirst(agreements, order) && id !in order
    ensures LatestStartFirst(agreements, InsertId(agreements, order, id))
  {
    var r := InsertId(agreements, order, id);
    if order == [] {
    } else if agreements[id].startDate >= agreements[order[0]].startDate {
      forall k1, k2 | 0 <= k1 < k2 < |r|
        ensures r[k1] != r[k2] && agreements[r[k1]].startDate >= agreements[r[k2]].startDate
      {
        assert r[k2] == order[k2 - 1];
        if k1 > 0 {
          assert r[k1] == order[k1 - 1];
        } else {
          assert order[k2 - 1] in order;
        }
      }
    } else {
      var rest := InsertId(agreements, order[1..], id);
      InsertIdOrdered(agreements, order[1..], id);
      assert r == [order[0]] + rest;
      forall k1, k2 | 0 <= k1 < k2 < |r|
        ensures r[k1] != r[k2] && agreements[r[k1]].startDate >= agreements[r[k2]].startDate
      {
        assert r[k2] == rest[k2 - 1];
        if k1 > 0 {
          assert r[k1] == rest[k1 - 1];
        } else {
          assert rest[k2 - 1] in rest;
          if rest[k2 - 1] != id {
            var j :| 0 <= j < |order[1..]| && order[1..][j] == rest[k2 - 1];
            assert order[j + 1] == rest[k2 - 1];
          }
        }
      }
    }
  }

  /** The ids `0 .. n-1`, latest start first. */
  function ByStartDate(agreements: seq<Agreement>, n: nat): (order: seq<nat>)
    requires n <= |agreements|
    ensures |order| == n && IdsOf(agreements, order) && LatestStartFirst(agreements, order)
    ensures forall x: nat :: x in order <==> x < n
  {
    if n == 0 then []
    else
      var before := ByStartDate(agreements, n - 1);
      InsertIdOrdered(agreements, before, n - 1);
      InsertId(agreements, before, n - 1)
  }

  /** Every agreement table has an order a search may return. */
  lemma SearchOrderExists(agreements: seq<Agreement>)
    ensures StartDateOrder(agreements, ByStartDate(agreements, |agreements|))
  {
  }
}
