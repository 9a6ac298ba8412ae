/** The screen component's state and the operations that replace it: the list
    of carts, the form being edited, and the search, filter and sort choices. */
module App {
  import opened Records
  import opened Summary
  import opened Store
  import opened Query
  import opened Sorting

  class RentalApp {
    var carts: seq<Record>
    var form: Record
    var searchTerm: string
    var filterStatus: string
    var sortOption: string

    /** Every stored record passed the add validation: it has a cart id, a
        renter name and a rent. */
    ghost predicate Valid()
      reads this
    {
      forall r :: r in carts ==> IsComplete(r)
    }

    /** The state the screen starts in, before anything is loaded: no carts,
        the empty form, no search, no filter, no sort. */
    constructor ()
      ensures Valid()
      ensures carts == [] && form == EmptyForm
      ensures searchTerm == "" && filterStatus == "" && sortOption == ""
    {
      carts := [];
      form := EmptyForm;
      searchTerm := "";
      filterStatus := "";
      sortOption := "";
    }

    /** Replaces the store with `newCarts`; writing it to device storage is not
        part of this model. */
    method SaveCarts(newCarts: seq<Record>)
      modifies this`carts
      ensures carts == newCarts
    {
      carts := newCarts;
    }

    /** Adds a copy of the form at the end of the store, provided cart id,
        renter name and rent are all filled in; otherwise changes nothing. The
        store is replaced before the record is written to device storage and
        its reminder scheduled; `stored` is whether both of those succeed, and
        only then is the form reset. */
    method AddCart(stored: bool)
      requires Valid()
      modifies this`carts, this`form
      ensures Valid()
      ensures IsComplete(old(form)) ==> carts == old(carts) + [old(form)]
      ensures IsComplete(old(form)) && stored ==> form == EmptyForm
      ensures IsComplete(old(form)) && !stored ==> form == old(form)
      ensures !IsComplete(old(form)) ==> carts == old(carts) && form == old(form)
    {
      if !IsComplete(form) {
        return;
      }
      var newCart := form;
      SaveCarts(carts + [newCart]);
      if !stored {
        return;
      }
      form := EmptyForm;
    }

    /** Removes every record with cart id `id`. */
    method DeleteCart(id: string)
      requires Valid()
      modifies this`carts
      ensures Valid()
      ensures carts == Without(old(carts), id)
      ensures forall r :: r in carts ==> r.cartId != id
    {
      SaveCarts(Without(carts, id));
    }

    /** Sets the status of every record with cart id `id` to "Paid". */
    method MarkPaid(id: string)
      requires Valid()
      modifies this`carts
      ensures Valid()
      ensures carts == MarkedPaid(old(carts), id)
      ensures |carts| == |old(carts)|
      ensures forall i :: 0 <= i < |carts| && old(carts)[i].cartId == id ==>
        carts[i].rentStatus == Paid && SameExceptStatus(carts[i], old(carts)[i])
      ensures forall i :: 0 <= i < |carts| && old(carts)[i].cartId != id ==> carts[i] == old(carts)[i]
    {
      var updated := MarkedPaid(carts, id);
      forall r | r in updated
        ensures IsComplete(r)
      {
        var i :| 0 <= i < |updated| && updated[i] == r;
        assert SameExceptStatus(r, carts[i]) && carts[i] in carts;
      }
      SaveCarts(updated);
    }

    /** The "Total Collected" line of the summary: together with the pending
        line it is the rent of the whole store. */
    function TotalCollected(): (n: nat)
      reads this
      ensures n + Outstanding(carts) == SumRents(carts)
      ensures (forall r :: r in carts ==> IsUnpaid(r)) ==> n == 0
    {
      TotalsPartition(carts);
      Collected(carts)
    }

    /** The "Total Pending" line of the summary: together with the collected
        line it is the rent of the whole store. */
    function TotalPending(): (n: nat)
      reads this
      ensures Collected(carts) + n == SumRents(carts)
      ensures (forall r :: r in carts ==> IsPaid(r)) ==> n == 0
    {
      TotalsPartition(carts);
      Outstanding(carts)
    }

    /** The cards listed on screen; `dateKey` stands for due-date parsing. In a
        valid store every listed card has a parsed rent, so the rent sort
        orders by the rents themselves and never meets an empty one. */
    function Visible(dateKey: string -> int): (r: seq<Record>)
      requires Valid()
      reads this
      ensures r == View(carts, searchTerm, filterStatus, sortOption, dateKey)
      ensures multiset(r) == multiset(Filtered(carts, searchTerm, filterStatus))
      ensures forall x :: x in r ==> x in carts && x.monthlyRent.Some? && RentKey(x) == x.monthlyRent.value
      ensures sortOption == "rentAmount" ==>
        forall i, j :: 0 <= i < j < |r| ==> r[i].monthlyRent.value <= r[j].monthlyRent.value
    {
      var v := View(carts, searchTerm, filterStatus, sortOption, dateKey);
      assert forall x :: x in v ==> x in Filtered(carts, searchTerm, filterStatus) by {
        forall x | x in v ensures x in Filtered(carts, searchTerm, filterStatus) {
          assert x in multiset(v);
        }
      }
      v
    }
  }

  /** A session on the screen: an add with an incomplete form is ignored, a
      complete one is stored and resets the form, marking paid moves the rent
      to the collected total, and deleting removes the cart. */
  method Session() {
    var app := new RentalApp();
    app.form := EmptyForm.(cartId := "C1", renterName := "Ravi", dueDate := "2024-06-01");
    app.AddCart(true);
    assert app.carts == [] && app.form.cartId == "C1";
    app.form := app.form.(monthlyRent := Some(750));
    var c1 := app.form;
    app.AddCart(true);
    assert app.carts == [c1] && app.form == EmptyForm;
    assert c1.rentStatus == Pending;
    app.MarkPaid("C1");
    assert app.carts[0] == c1.(rentStatus := Paid);
    FirstTotals(app.carts);
    assert app.carts[1..] == [];
    assert app.TotalCollected() == 750;
    app.DeleteCart("C1");
    assert app.carts == [];
  }

  /** When the save or the reminder fails, the cart is still stored but the
      form keeps its contents. */
  method FailedSaveExample() {
    var app := new RentalApp();
    var c2 := EmptyForm.(cartId := "C2", renterName := "Meena", monthlyRent := Some(400));
    app.form := c2;
    app.AddCart(false);
    assert app.carts == [c2] && app.form == c2;
  }

  /** Sorting three carts by rent, as the "Sort by Rent" button does. */
  method RentSortExample() {
    var x := EmptyForm.(cartId := "X", renterName := "Xavi", monthlyRent := Some(500));
    var y := EmptyForm.(cartId := "Y", renterName := "Yash", monthlyRent := Some(100));
    var z := EmptyForm.(cartId := "Z", renterName := "Zoya", monthlyRent := Some(300));
    var k := RentKey;
    assert k(x) == 500 && k(y) == 100 && k(z) == 300;
    assert [x, y, z][1..] == [y, z] && [y, z][1..] == [z] && [z][1..] == [];
    assert SortBy([z], k) == [z];
    assert Insert(y, [z], k) == [y, z];
    assert SortBy([y, z], k) == [y, z];
    assert Insert(x, [z], k) == [z, x];
    assert Insert(x, [y, z], k) == [y] + Insert(x, [z], k) == [y, z, x];
    assert SortBy([x, y, z], k) == [y, z, x];
  }
}
