/** The monthly summary: the rent already collected (records marked "Paid") and
    the rent still pending (every other record). */
module Summary {
  import opened Records
  import opened Lists

  /** The sum of the rents of `s`, an empty rent counting as 0. Every record's
      rent is part of it, and it is 0 only when every rent is. */
  function SumRents(s: seq<Record>): (n: nat)
    ensures forall x :: x in s ==> RentOf(x) <= n
    ensures n == 0 <==> forall x :: x in s ==> RentOf(x) == 0
  {
    if s == [] then 0
    else
      var rest := SumRents(s[1..]);
      assert forall x :: x in s ==> x == s[0] || x in s[1..];
      RentOf(s[0]) + rest
  }

  /** Total collected: the rents of the records whose status is exactly "Paid".
      It includes the rent of every paid record, is 0 when no record is paid,
      and is at most the rent of the whole store. */
  function Collected(carts: seq<Record>): (n: nat)
    ensures forall x :: x in carts && IsPaid(x) ==> RentOf(x) <= n
    ensures (forall x :: x in carts ==> IsUnpaid(x)) ==> n == 0
    ensures n <= SumRents(carts)
  {
    var paid := Filter(carts, IsPaid);
    assert forall x :: x in carts && IsPaid(x) ==> x in paid by {
      forall x | x in carts && IsPaid(x) ensures x in paid {
        assert multiset(paid)[x] == multiset(carts)[x];
      }
    }
    SumFilterAtMost(carts, IsPaid);
    SumRents(paid)
  }

  /** Total pending: the rents of every record whose status is not "Paid". It
      includes the rent of every unpaid record, is 0 when every record is paid,
      and is at most the rent of the whole store. */
  function Outstanding(carts: seq<Record>): (n: nat)
    ensures forall x :: x in carts && IsUnpaid(x) ==> RentOf(x) <= n
    ensures (forall x :: x in carts ==> IsPaid(x)) ==> n == 0
    ensures n <= SumRents(carts)
  {
    var unpaid := Filter(carts, IsUnpaid);
    assert forall x :: x in carts && IsUnpaid(x) ==> x in unpaid by {
      forall x | x in carts && IsUnpaid(x) ensures x in unpaid {
        assert multiset(unpaid)[x] == multiset(carts)[x];
      }
    }
    SumFilterAtMost(carts, IsUnpaid);
    SumRents(unpaid)
  }

  /** Leaving records out never raises the rent sum. */
  lemma {:induction false} SumFilterAtMost(s: seq<Record>, p: Record -> bool)
    ensures SumRents(Filter(s, p)) <= SumRents(s)
  {
    if s != [] {
      SumFilterAtMost(s[1..], p);
      FilterFirst(s, p);
      var rest := Filter(s[1..], p);
      if p(s[0]) {
        var r := [s[0]] + rest;
        assert r[0] == s[0] && r[1..] == rest;
      }
    }
  }

  lemma {:induction false} SumRentsAppend(a: seq<Record>, b: seq<Record>)
    ensures SumRents(a + b) == SumRents(a) + SumRents(b)
  {
    if a == [] {
      assert a + b == b;
    } else {
      assert (a + b)[0] == a[0];
      assert (a + b)[1..] == a[1..] + b;
      SumRentsAppend(a[1..], b);
    }
  }

  /** The totals of a non-empty store: its first record's rent goes to the
      total its status selects, the rest is the totals of the remaining records. */
  lemma FirstTotals(carts: seq<Record>)
    requires carts != []
    ensures Collected(carts) == (if IsPaid(carts[0]) then RentOf(carts[0]) else 0) + Collected(carts[1..])
    ensures Outstanding(carts) == (if IsPaid(carts[0]) then 0 else RentOf(carts[0])) + Outstanding(carts[1..])
  {
    var x := carts[0];
    assert carts == [x] + carts[1..];
    FilterAppend([x], carts[1..], IsPaid);
    FilterAppend([x], carts[1..], IsUnpaid);
    assert Filter([x], IsPaid) == (if IsPaid(x) then [x] else []);
    assert Filter([x], IsUnpaid) == (if IsPaid(x) then [] else [x]);
    SumRentsAppend(Filter([x], IsPaid), Filter(carts[1..], IsPaid));
    SumRentsAppend(Filter([x], IsUnpaid), Filter(carts[1..], IsUnpaid));
  }

  /** Every record is counted in exactly one of the two totals, so together they
      are the rent of the whole store. */
  lemma {:induction false} TotalsPartition(carts: seq<Record>)
    ensures Collected(carts) + Outstanding(carts) == SumRents(carts)
  {
    if carts != [] {
      TotalsPartition(carts[1..]);
      FirstTotals(carts);
    }
  }

  /** Two stores with the same rents, record by record, have the same rent sum. */
  lemma {:induction false} SameRentsSameSum(a: seq<Record>, b: seq<Record>)
    requires |a| == |b|
    requires forall i :: 0 <= i < |a| ==> RentOf(a[i]) == RentOf(b[i])
    ensures SumRents(b) == SumRents(a)
  {
    if a != [] {
      var a', b' := a[1..], b[1..];
      assert forall i :: 0 <= i < |a'| ==> a'[i] == a[i + 1] && b'[i] == b[i + 1];
      SameRentsSameSum(a', b');
    }
  }

  /** If `b` is `a` with the same rents, record by record, and no paid record of
      `a` unpaid in `b`, then `b` has no less collected and no more pending. */
  lemma {:induction false} TotalsMonotone(a: seq<Record>, b: seq<Record>)
    requires |a| == |b|
    requires forall i :: 0 <= i < |a| ==> RentOf(a[i]) == RentOf(b[i])
    requires forall i :: 0 <= i < |a| && IsPaid(a[i]) ==> IsPaid(b[i])
    ensures Collected(b) >= Collected(a)
    ensures Outstanding(b) <= Outstanding(a)
  {
    if a != [] {
      var a', b' := a[1..], b[1..];
      assert forall i :: 0 <= i < |a'| ==> a'[i] == a[i + 1] && b'[i] == b[i + 1];
      TotalsMonotone(a', b');
      FirstTotals(a);
      FirstTotals(b);
    }
  }

  /** Appending a record adds its rent to the total its status puts it in and
      leaves the other total alone. */
  lemma AppendTotals(carts: seq<Record>, x: Record)
    ensures Collected(carts + [x]) == Collected(carts) + (if IsPaid(x) then RentOf(x) else 0)
    ensures Outstanding(carts + [x]) == Outstanding(carts) + (if IsPaid(x) then 0 else RentOf(x))
  {
    FilterAppend(carts, [x], IsPaid);
    FilterAppend(carts, [x], IsUnpaid);
    assert Filter([x], IsPaid) == (if IsPaid(x) then [x] else []);
    assert Filter([x], IsUnpaid) == (if IsPaid(x) then [] else [x]);
    SumRentsAppend(Filter(carts, IsPaid), Filter([x], IsPaid));
    SumRentsAppend(Filter(carts, IsUnpaid), Filter([x], IsUnpaid));
  }
}
