/** The rental record (one row per rented pushcart) and the editable form,
    which has the same shape: a new record is a copy of the form. */
module Records {

  datatype Option<+T> = None | Some(value: T)

  /** A picked address-proof document, kept verbatim as the picker returned it. */
  datatype FileRef = FileRef(name: string, uri: string)

  /** One rental record. Every field is the text typed into the form except two:
      `addressProofFile` is the optional picked document, and `monthlyRent` is
      `None` for an empty rent field and `Some(n)` for a rent already parsed as
      the natural number `n`. */
  datatype Record = Record(
    cartId: string,
    renterName: string,
    mobileNo: string,
    address: string,
    idProof: string,
    addressProofFile: Option<FileRef>,
    securityDeposit: string,
    monthlyRent: Option<nat>,
    startDate: string,
    dueDate: string,
    rentStatus: string,
    locationLink: string,
    notes: string)

  const Paid: string := "Paid"
  const Pending: string := "Pending"

  /** The form as the screen first shows it, and as it is reset after an add:
      every text field empty, no document, status "Pending". */
  const EmptyForm: Record :=
    Record("", "", "", "", "", None, "", None, "", "", Pending, "", "")

  /** The three fields that adding a cart insists on are all filled in. The
      reset form never passes, and a form that passes has a parsed rent. */
  predicate IsComplete(f: Record)
    ensures f == EmptyForm ==> !IsComplete(f)
    ensures IsComplete(f) ==> f.cartId != "" && f.renterName != "" && f.monthlyRent != None
  {
    !(f.cartId == "" || f.renterName == "" || f.monthlyRent == None)
  }

  /** The amount a record contributes to the totals: a filled-in rent counts as
      its value and an empty rent as 0. */
  function RentOf(r: Record): (n: nat)
    ensures r.monthlyRent == None ==> n == 0
    ensures forall v :: r.monthlyRent == Some(v) ==> n == v
  {
    match r.monthlyRent
    case None => 0
    case Some(v) => v
  }

  predicate IsPaid(r: Record) {
    r.rentStatus == Paid
  }

  predicate IsUnpaid(r: Record) {
    r.rentStatus != Paid
  }

  /** `a` and `b` agree on every field except possibly `rentStatus`. */
  predicate SameExceptStatus(a: Record, b: Record) {
    a.(rentStatus := "") == b.(rentStatus := "")
  }
}
