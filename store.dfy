/** The new store contents built by deleting a cart and by marking a cart paid.
    Both treat `cartId` as a key that may match several records. */
module Store {
  import opened Records
  import opened Lists
  import opened Summary

  /** The test that keeps a record on deletion: its id differs from `id`. */
  function OtherId(id: string): Record -> bool {
    (r: Record) => r.cartId != id
  }

  /** The store after deleting cart `id`: no record has that id any more, and
      the records with other ids all remain, in their original order. */
  function Without(carts: seq<Record>, id: string): (r: seq<Record>)
    ensures IsSubseq(r, carts)
    ensures forall x :: x in r ==> x in carts && x.cartId != id
    ensures forall x: Record :: x.cartId != id ==> multiset(r)[x] == multiset(carts)[x]
    ensures forall x: Record :: x.cartId == id ==> x !in r
  {
    Filter(carts, OtherId(id))
  }

  /** Deleting leaves the store as it is exactly when no record has the id. */
  lemma DeleteAbsent(carts: seq<Record>, id: string)
    ensures Without(carts, id) == carts <==> forall x :: x in carts ==> x.cartId != id
  {
    FilterKeepsAll(carts, OtherId(id));
  }

  /** Deleting the same id twice is deleting it once. */
  lemma DeleteIdempotent(carts: seq<Record>, id: string)
    ensures Without(Without(carts, id), id) == Without(carts, id)
  {
    FilterIdempotent(carts, OtherId(id));
  }

  /** The store after marking cart `id` paid: the same records in the same
      order, where each record with that id has status "Paid" and every other
      field as before, and each record with another id is untouched. */
  function MarkedPaid(carts: seq<Record>, id: string): (r: seq<Record>)
    ensures |r| == |carts|
    ensures forall i :: 0 <= i < |carts| && carts[i].cartId == id ==>
      r[i].rentStatus == Paid && SameExceptStatus(r[i], carts[i])
    ensures forall i :: 0 <= i < |carts| && carts[i].cartId != id ==> r[i] == carts[i]
  {
    seq(|carts|, i requires 0 <= i < |carts| =>
      if carts[i].cartId == id then carts[i].(rentStatus := Paid) else carts[i])
  }

  /** Marking the same id paid twice is marking it once. */
  lemma MarkPaidIdempotent(carts: seq<Record>, id: string)
    ensures MarkedPaid(MarkedPaid(carts, id), id) == MarkedPaid(carts, id)
  {
    var once := MarkedPaid(carts, id);
    var twice := MarkedPaid(once, id);
    forall i | 0 <= i < |carts|
      ensures twice[i] == once[i]
    {
      if carts[i].cartId == id {
        assert once[i] == carts[i].(rentStatus := Paid);
      }
    }
  }

  /** Marking paid keeps every record's id, so it drops no key and adds none. */
  lemma MarkPaidKeepsIds(carts: seq<Record>, id: string, k: string)
    ensures (exists x :: x in MarkedPaid(carts, id) && x.cartId == k) <==>
            (exists x :: x in carts && x.cartId == k)
  {
    var r := MarkedPaid(carts, id);
    if exists x :: x in carts && x.cartId == k {
      var x :| x in carts && x.cartId == k;
      var i :| 0 <= i < |carts| && carts[i] == x;
      assert r[i] in r && r[i].cartId == k;
    }
    if exists x :: x in r && x.cartId == k {
      var x :| x in r && x.cartId == k;
      var i :| 0 <= i < |r| && r[i] == x;
      assert carts[i] in carts && carts[i].cartId == k;
    }
  }

  /** Marking paid moves rent from pending to collected: neither total of the
      store changes, collected cannot fall and pending cannot rise. */
  lemma MarkPaidTotals(carts: seq<Record>, id: string)
    ensures SumRents(MarkedPaid(carts, id)) == SumRents(carts)
    ensures Collected(MarkedPaid(carts, id)) >= Collected(carts)
    ensures Outstanding(MarkedPaid(carts, id)) <= Outstanding(carts)
  {
    var r := MarkedPaid(carts, id);
    forall i | 0 <= i < |carts|
      ensures RentOf(carts[i]) == RentOf(r[i])
    {
    }
    SameRentsSameSum(carts, r);
    TotalsMonotone(carts, r);
  }
}
