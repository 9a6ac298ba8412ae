/** The list shown on screen: the store narrowed by the search box and the
    status filter, then optionally sorted by due date or by rent. */
module Query {
  import opened Records
  import opened Lists
  import opened Sorting

  /** Lower-casing of one character, as `toLowerCase` does for A to Z. */
  function LowerChar(c: char): char {
    if 'A' <= c <= 'Z' then (c as int + 32) as char else c
  }

  /** `toLowerCase` restricted to A to Z: each capital letter becomes its small
      letter, every other character stays, and no capital letter is left. */
  function Lower(s: string): (r: string)
    ensures |r| == |s|
    ensures forall i :: 0 <= i < |s| && 'A' <= s[i] <= 'Z' ==> r[i] as int == s[i] as int + 32
    ensures forall i :: 0 <= i < |s| && !('A' <= s[i] <= 'Z') ==> r[i] == s[i]
    ensures forall i :: 0 <= i < |r| ==> !('A' <= r[i] <= 'Z')
  {
    seq(|s|, i requires 0 <= i < |s| => LowerChar(s[i]))
  }


  predicate IsPrefix(p: string, s: string) {
    |p| <= |s| && s[..|p|] == p
  }

  /** `s.includes(t)`: `t` occurs in `s` at some position. The empty text
      occurs in every string, and no string holds a longer one. */
  predicate Includes(s: string, t: string)
    ensures t == [] ==> Includes(s, t)
    ensures Includes(s, t) ==> |t| <= |s|
    decreases |s|
  {
    IsPrefix(t, s) || (s != [] && Includes(s[1..], t))
  }

  /** `t` occurs in `s` starting at position `i`. */
  predicate OccursAt(s: string, t: string, i: int) {
    0 <= i <= |s| - |t| && s[i..i + |t|] == t
  }

  /** `Includes` agrees with the direct definition of an occurrence: some
      position where the next `|t|` characters of `s` spell `t`. */
  lemma {:induction false} IncludesAt(s: string, t: string)
    ensures Includes(s, t) <==> exists i :: OccursAt(s, t, i)
  {
    if IsPrefix(t, s) {
      assert OccursAt(s, t, 0);
    } else if s == [] {
      assert forall i :: !OccursAt(s, t, i);
    } else {
      IncludesAt(s[1..], t);
      if exists i :: OccursAt(s, t, i) {
        var i :| OccursAt(s, t, i);
        assert i != 0;
        assert s[1..][i - 1..i - 1 + |t|] == s[i..i + |t|];
        assert OccursAt(s[1..], t, i - 1);
      }
      if exists i :: OccursAt(s[1..], t, i) {
        var i :| OccursAt(s[1..], t, i);
        assert s[1..][i..i + |t|] == s[i + 1..i + 1 + |t|];
        assert OccursAt(s, t, i + 1);
      }
    }
  }

  /** The search box matches a record when its text, lower-cased, occurs in the
      lower-cased cart id, renter name or status. An empty search matches every
      record; a match needs one of the three fields to be at least as long as
      the search text. */
  predicate MatchesSearch(r: Record, term: string)
    ensures term == "" ==> MatchesSearch(r, term)
    ensures MatchesSearch(r, term) ==>
      |term| <= |r.cartId| || |term| <= |r.renterName| || |term| <= |r.rentStatus|
  {
    var t := Lower(term);
    Includes(Lower(r.cartId), t) || Includes(Lower(r.renterName), t) || Includes(Lower(r.rentStatus), t)
  }

  /** A record is shown when it matches the search box and, if a status filter
      is chosen, has exactly that status. With an empty search box, the status
      filter alone decides. */
  predicate Shown(r: Record, term: string, status: string)
    ensures Shown(r, term, status) ==> status == "" || r.rentStatus == status
    ensures term == "" ==> (Shown(r, term, status) <==> status == "" || r.rentStatus == status)
  {
    MatchesSearch(r, term) && (status == "" || r.rentStatus == status)
  }

  function ShownBy(term: string, status: string): Record -> bool {
    (r: Record) => Shown(r, term, status)
  }

  /** The filtered list: the records shown, in store order, each as often as
      it occurs in the store. */
  function Filtered(carts: seq<Record>, term: string, status: string): (r: seq<Record>)
    ensures IsSubseq(r, carts)
    ensures forall x :: x in r ==> x in carts && Shown(x, term, status)
    ensures forall x :: Shown(x, term, status) ==> multiset(r)[x] == multiset(carts)[x]
  {
    Filter(carts, ShownBy(term, status))
  }

  /** An empty search box and no status filter show the whole store. */
  lemma EmptyQueryShowsAll(carts: seq<Record>)
    ensures Filtered(carts, "", "") == carts
  {
    forall x | x in carts ensures Shown(x, "", "") {
      assert IsPrefix(Lower(""), Lower(x.cartId));
    }
    FilterKeepsAll(carts, ShownBy("", ""));
  }

  /** The search ignores letter case: two search texts with the same
      lower-cased form select the same records. */
  lemma SearchIgnoresCase(carts: seq<Record>, term1: string, term2: string, status: string)
    requires Lower(term1) == Lower(term2)
    ensures Filtered(carts, term1, status) == Filtered(carts, term2, status)
  {
    FilterCongruent(carts, ShownBy(term1, status), ShownBy(term2, status));
  }

  /** The rent sort key, `parseFloat(monthlyRent)`: the parsed rent of a record
      that has one; see the note on `View` for a record that has none. */
  function RentKey(r: Record): (k: int)
    ensures k >= 0
    ensures forall v :: r.monthlyRent == Some(v) ==> k == v
  {
    RentOf(r)
  }

  /** The due-date sort key: the record's due date mapped through `dateKey`,
      which stands for date parsing and is any total order on due dates. Two
      records with the same due date get the same key. */
  function DueKey(dateKey: string -> int): (key: Record -> int)
    ensures forall a: Record, b: Record :: a.dueDate == b.dueDate ==> key(a) == key(b)
  {
    (r: Record) => dateKey(r.dueDate)
  }

  /** The list on screen. With sort option "dueDate" or "rentAmount" it is the
      filtered list stably sorted by that key; with any other option it is the
      filtered list in store order. A record with an empty rent has key 0 here;
      such a record never reaches the store (see `App.RentalApp.Valid`). */
  function View(carts: seq<Record>, term: string, status: string, sortOption: string,
                dateKey: string -> int): (r: seq<Record>)
    ensures multiset(r) == multiset(Filtered(carts, term, status))
    ensures sortOption != "dueDate" && sortOption != "rentAmount" ==> r == Filtered(carts, term, status)
    ensures sortOption == "rentAmount" ==> SortedBy(r, RentKey)
    ensures sortOption == "dueDate" ==> SortedBy(r, DueKey(dateKey))
  {
    var shown := Filtered(carts, term, status);
    if sortOption == "dueDate" then SortBy(shown, DueKey(dateKey))
    else if sortOption == "rentAmount" then SortBy(shown, RentKey)
    else shown
  }

  /** The sorted views keep records with equal keys in store order, and each is
      the only list that is both sorted by its key and stable in that way. */
  lemma ViewSortIsStable(carts: seq<Record>, term: string, status: string, sortOption: string,
                         dateKey: string -> int)
    requires sortOption == "dueDate" || sortOption == "rentAmount"
    ensures var key := if sortOption == "dueDate" then DueKey(dateKey) else RentKey;
      var r := View(carts, term, status, sortOption, dateKey);
      Stable(r, Filtered(carts, term, status), key) &&
      forall other :: SortedBy(other, key) && Stable(other, Filtered(carts, term, status), key) ==> other == r
  {
    var key := if sortOption == "dueDate" then DueKey(dateKey) else RentKey;
    var shown := Filtered(carts, term, status);
    SortByIsStable(shown, key);
    forall other | SortedBy(other, key) && Stable(other, shown, key)
      ensures other == SortBy(shown, key)
    {
      StableSortIsUnique(other, shown, key);
    }
  }
}
