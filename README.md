# Thela rental store — a Dafny model

This project models the record store inside the single screen component of a
pushcart ("thela") rental app. The component keeps a list of rental records
(`carts`) and an editable form, and offers three operations:

- **add** validates the form and appends a copy of it;
- **delete** drops every record with a given cart id;
- **mark paid** sets the status of every record with a given cart id to "Paid".

From that state it derives two summary totals, collected and pending, and the
list shown on screen. That list is a case-insensitive search over cart id,
renter name and status, then an exact status filter, then an optional stable
sort by due date or by rent.

Modules, one per component:

- `Records` (`records.dfy`): the record and form datatype, the empty form, the
  add validation and the rent a record contributes.
- `Lists` (`lists.dfy`): `Filter`, the order-keeping selection that
  `Array.prototype.filter` performs, and the subsequence relation.
- `Store` (`store.dfy`): the new store built by delete (`Without`) and by mark
  paid (`MarkedPaid`), with their idempotence and "nothing else changes" lemmas.
- `Summary` (`summary.dfy`): total collected and total pending, and the proof
  that they split the store's rent.
- `Sorting` (`sorting.dfy`): a stable sort by an integer key, and the proof
  that a stable sort has only one possible result.
- `Query` (`query.dfy`): `includes`, the search and status filter, and the view.
- `App` (`app.dfy`): the class `RentalApp`, holding the component's mutable
  state, and its methods `SaveCarts`, `AddCart`, `DeleteCart` and `MarkPaid`.
  It also holds three client methods, `Session`, `FailedSaveExample` and
  `RentSortExample`, which show what a caller can conclude from those
  contracts.

Modelling choices:

- A rent is `Option<nat>`. `None` is the empty rent field and `Some(n)` is a
  rent already parsed as `n`. `RentOf` maps `None` to 0, which is the effect of
  `c.monthlyRent || 0` in the totals.
- The status is free text typed into the form. "Paid" decides which total a
  record counts in (App.js:96-97). The filter buttons set `filterStatus` to
  exactly "Pending" or "Paid" (App.js:125-126), and the filter compares
  exactly (App.js:104). A record with any other status therefore counts as
  pending in the totals but is hidden by "Show Pending".
- Due dates stay strings. The due-date sort compares `dateKey(dueDate)`, where
  `dateKey` is a parameter that stands for date parsing.
- `RentalApp.Valid()` is the invariant that every stored record passed the add
  validation. Add, delete and mark paid all preserve it, and `Visible` relies on
  it: every listed card has a parsed rent, so the rent sort orders by the rents
  themselves.
- `AddCart` takes a flag `stored` that stands for the outcome of the two
  awaited platform calls, the storage write and the reminder. The store is
  replaced before either runs, so it gains the record either way; the form is
  reset only when both succeed.
- The form is a public field of `RentalApp`. A caller edits it by assigning to
  it, as the text inputs do through `handleChange`.
- `parseFloat` of a rent that does not parse is NaN, and NaN spreads through
  the sum. The model has no such rents.

## Model

| member | source | states |
|---|---|---|
| Records.IsComplete | App.js:62 | the add validation: a passing form has a cart id, a renter name and a rent; the reset form never passes |
| Records.RentOf | App.js:96-97 | the rent default of the totals: a filled-in rent counts as its value, an empty one as 0 |
| Lists.Filter | App.js:85-105 | the result is a subsequence of the input; every kept element passes the test; each passing element occurs as often as in the input, and no failing one occurs |
| Lists.FilterKeepsAll | App.js:85 | filtering returns its input unchanged exactly when every element passes |
| Store.Without | App.js:85 | after deletion no record has the id; every record with another id keeps its number of occurrences; the result is a subsequence of the old store |
| Store.DeleteAbsent | App.js:85 | deleting leaves the store unchanged if and only if no record has that id |
| Store.DeleteIdempotent | App.js:84-87 | deleting the same id twice equals deleting it once |
| Store.MarkedPaid | App.js:90-92 | same length and order; each record with the id has status "Paid" and every other field unchanged; each record with another id is untouched |
| Store.MarkPaidIdempotent | App.js:90-92 | marking the same id paid twice equals marking it once |
| Store.MarkPaidKeepsIds | App.js:90-92 | a cart id is present after mark paid if and only if it was present before |
| Store.MarkPaidTotals | App.js:89-97 | mark paid keeps the rent sum of the store; collected does not fall and pending does not rise |
| Summary.SumRents | App.js:96-97 | the `reduce` sum: every record's rent is part of it, and it is 0 exactly when every rent is 0 |
| Summary.Collected | App.js:96 | total collected includes the rent of every paid record, is 0 when no record is paid, and is at most the rent of the whole store |
| Summary.Outstanding | App.js:97 | total pending includes the rent of every record not marked "Paid", is 0 when every record is paid, and is at most the rent of the whole store |
| Summary.SumFilterAtMost | App.js:96-97 | leaving records out of the sum never raises it |
| Summary.TotalsPartition | App.js:96-97 | total collected plus total pending equals the rent sum over all records |
| Summary.AppendTotals | App.js:96-97 | appending a record adds its rent to collected if its status is "Paid", otherwise to pending, and leaves the other total unchanged |
| Summary.TotalsMonotone | App.js:96-97 | if rents stay the same record by record and no paid record becomes unpaid, collected does not fall and pending does not rise |
| Query.Lower | App.js:101-103 | `toLowerCase` on A to Z: the same length, each capital becomes its small letter, every other character stays, no capital is left |
| Query.Includes | App.js:101-103 | `includes`: the empty text occurs in every string, and a string never holds a longer text |
| Query.MatchesSearch | App.js:101-103 | an empty search matches every record; a match needs the cart id, renter name or status to be at least as long as the search text |
| Query.Shown | App.js:100-104 | a shown record has the chosen status when a status filter is set; with an empty search the status filter alone decides |
| Query.RentKey | App.js:108 | the rent sort key is never negative and is the parsed rent of a record that has one |
| Query.DueKey | App.js:107 | the due-date sort key depends on the due date alone |
| Query.IncludesAt | App.js:101-103 | `Includes(s, t)` holds if and only if `t` occurs in `s` at some position |
| Query.Filtered | App.js:99-105 | the filtered list is a subsequence of the store; every kept record matches the search in id, name or status and has the chosen status when one is chosen; every matching record is kept as often as it occurs |
| Query.EmptyQueryShowsAll | App.js:99-105 | an empty search and no status filter give the whole store in store order |
| Query.SearchIgnoresCase | App.js:101-103 | two search texts with the same lower-cased form give the same list |
| Query.View | App.js:107-108 | the view is a permutation of the filtered list; sorted by rent for "rentAmount"; sorted by due-date key for "dueDate"; for any other sort option it is the filtered list in store order |
| Query.ViewSortIsStable | App.js:107-108 | a sorted view keeps records with equal keys in filtered order, and it is the only sorted list that does so |
| Sorting.SortBy | App.js:107-108 | the result is a permutation of the input and non-decreasing by the key |
| Sorting.SortByIsStable | App.js:107-108 | for every key value, the elements with that key appear in the same order as in the input |
| Sorting.StableSortIsUnique | App.js:107-108 | any list sorted by the key that keeps each key's elements in input order equals `SortBy`; so `SortBy` is the result of any stable sort, including the stable `Array.prototype.sort` |
| App.RentalApp.constructor | App.js:8-26 | the screen starts with no carts, the default form (all fields empty, no file, status "Pending"), and no search, filter or sort |
| App.RentalApp.SaveCarts | App.js:36-39 | the store becomes exactly the given list |
| App.RentalApp.AddCart | App.js:61-82 | with an empty cart id, renter name or rent, store and form stay unchanged; otherwise the store gains one copy of the form at the end, and the form is reset to the default when the save and the reminder succeed and kept when either fails; the invariant is kept |
| App.RentalApp.DeleteCart | App.js:84-87 | the store becomes `Without(old store, id)`, so no record keeps the id; the invariant is kept |
| App.RentalApp.TotalCollected | App.js:96 | the collected line plus the pending total is the rent of the whole store; it is 0 when no record is paid |
| App.RentalApp.TotalPending | App.js:97 | the collected total plus the pending line is the rent of the whole store; it is 0 when every record is paid |
| App.RentalApp.Visible | App.js:99-108 | the listed cards are `View` of the screen state, so the due-date order, stability and store order of `View` and `ViewSortIsStable` apply; in a valid store they are the filtered cards rearranged; each is a stored card with a parsed rent, which is its rent sort key; with the rent sort, rents do not decrease down the list |
| App.RentalApp.MarkPaid | App.js:89-94 | the store becomes `MarkedPaid(old store, id)`: same length, matching records become "Paid" with all other fields kept, other records untouched; the invariant is kept |

## Left out

- Loading the store from device storage when the screen mounts (App.js:28-34) is left out: it is asynchronous platform I/O. The model starts from an empty store.
- Writing the store to device storage in `saveCarts` (App.js:38) is left out for the same reason. `SaveCarts` only replaces the store.
- `scheduleReminder` (App.js:48-59) and its call from `addCart` (App.js:66) are left out. They call the notification service and use `Date` parsing in the local time zone.
- App.RentalApp.AddCart: the outcome of the storage write (App.js:38) and of scheduling the reminder (App.js:52-58) is the parameter `stored`, not computed. When either fails, for example when `AsyncStorage.setItem` rejects, the code rejects the promise after the store already holds the record and leaves the form as it was; the model keeps the record and the form in that case, and does not model the rejection itself.
- `pickFile` (App.js:43-46), `handlePreviewFile` (App.js:110) and opening a location link (App.js:149) are left out: they are opaque platform calls. A picked file appears in the model only as the `addressProofFile` value on the form.
- `handleChange` (App.js:41) is left out. The model assigns the public `form` field directly instead.
- Rendering and styles (App.js:112-165) are left out, including the rule that the "Mark Paid" button appears only on unpaid cards.
- Rents are natural numbers, not the result of `parseFloat`. Floating-point sums, fractional rents and NaN are not modelled. A rent string that does not parse (NaN in the code) cannot be represented.
- Query.RentKey: maps an empty rent to 0, where `parseFloat("")` is NaN. `Query.View` accepts any list of records, but `App.RentalApp.Visible` requires `RentalApp.Valid`, under which no listed card has an empty rent.
- Query.DueKey: the date parser is the parameter `dateKey`, which gives a total order. An invalid date makes the code's comparator return NaN, and the order is then left to the engine. An empty due date is one such date, and `addCart` does not require a due date, so stores holding such records are ordinary; the model still gives them a definite order, by whatever key `dateKey` assigns.
- Query.Lower: lower-cases only the letters A to Z. The full Unicode case mapping of `toLowerCase` is not modelled.
- Each operation is modelled as running to completion against the current state. React's state updates can be batched, and an awaited save lets a second event see the old `carts`; neither is modelled.
- Cart ids are not required to be unique, just as in the code. `AddCart` can store two records with the same id. Delete and mark paid then act on all of them.
