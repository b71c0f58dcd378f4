# Customer management console: a Dafny model

This project models the two pieces of logic in a small customer-management
application.

- **The customer list page** (`src/app/page.tsx`). It is a single-page controller that holds:
  - the authoritative customer list;
  - the displayed view, filtered and sorted;
  - a form draft;
  - an optional edit target;
  - the search term;
  - the sort configuration.

  Its handlers change these fields: fetch, search, column sort, form input, edit-begin, add, update, the submit dispatch, delete and toggle.
- **The customer service** (`backend/app.py`). It is a collection of customer documents keyed by e-mail. Its endpoints add, update, delete and sort. Add rejects a duplicate e-mail with 400. Update and delete answer 404 when no document has the e-mail. Sort accepts only the keys `name`, `email` and `fav_number`.

Files:

- `text.dfy` (module `Text`): the string operations the page relies on:
  - ASCII lower-casing (`toLowerCase`);
  - substring search (`includes`);
  - the order `<` puts on strings (by code point, standing in for JavaScript's UTF-16 code-unit order);
  - the decimal text of an integer (`toString`).
- `ordering.dfy` (module `Ordering`):
  - the values a column holds (number, string, flag) and the order `<` puts on them;
  - a sort that returns a permutation of its input with no element after one it should follow;
- `sequences.dfy` (module `Sequences`):
  - a filter that keeps the elements passing a test, in order;
  - the fact that mapping a function over two permutations of one another gives two permutations of one another.
- `optional.dfy` (module `Optional`): `Option`.
- `directory.dfy` (module `Directory`): the service. `CustomerCollection` holds the stored documents as a `seq<Document>`, in the store's natural order. Each document is a record plus its `_id`. The endpoints are methods that change the collection and return a status code with a body or an error detail.
- `customer_page.dfy` (module `CustomerPage`): the page. `Page` has one field per piece of component state.
  - Each handler is a method.
  - The service's answer is a parameter: success with a payload, an HTTP error status, or no response.
  - The toast or console line comes back as an `Event`.
  - The request sent comes back as a `Request`.
  - A handler that starts a re-fetch returns `refetch == true`. The re-fetch itself is the separate step `FetchCustomers`.

Behaviour of the code that the model keeps as written:

- **Sort direction.** Repeated clicks on one column alternate ascending, descending, ascending, and so on. The sort configuration starts as name/ascending, although the loaded list is shown unsorted in the service's order, so the first click on Name sorts descending (page.tsx:36-39, 45-47, 52, 154-159).
- **Search input.** Search always filters the whole list. Any earlier sort of the view is dropped. After a re-fetch the view is the unfiltered, unsorted list, while the search box keeps its text and `sortConfig` keeps its value (page.tsx:45-47, 66-78).
- **Failure reporting.** Only a 400 on add shows an error toast. Every other failed add, update, delete, toggle or fetch only writes a `console.error` line (page.tsx:92-97, 106-108, 137-139, 149-151, 53-55).
- **Update.** The update endpoint does not check the new e-mail. Giving a record another record's e-mail leaves two documents with one e-mail (`UpdateCanDuplicateEmail`, and `UpdateDuplicatesEmail` through the endpoint itself).
- **Data types.** The service's schema has no `active` field, and its favourite number is an integer. The page shows the number through `toString` and keeps an `active` flag per customer.

## Model

| member | source | states |
|---|---|---|
| `Text.Lower` | src/app/page.tsx:70-75 | The lower-cased string has the same length. Each upper-case ASCII letter becomes its own lower-case letter. Every other character is unchanged, so no upper-case letter is left. |
| `Text.LowerIdempotent` | src/app/page.tsx:70-75 | Lower-casing twice is the same as lower-casing once. |
| `Text.Contains` | src/app/page.tsx:70-75 | `s.includes(p)`: a pattern that is a prefix of the string is found, and a pattern that is found is no longer than the string. |
| `Text.ContainsOccurs` | src/app/page.tsx:70-75 | `includes` holds exactly when the pattern occurs at some index of the string. |
| `Text.ContainsEmpty` | src/app/page.tsx:70-75 | The empty pattern is found in every string. |
| `Text.StrLess` | src/app/page.tsx:162-163 | `a < b` on strings: a proper prefix is below every extension of it, and no string is below one of its prefixes or itself. |
| `Text.StrLessFirstDifference` | src/app/page.tsx:162-163 | At the first position where two strings differ, the smaller character decides `<`, so the order is lexicographic. |
| `Text.StrLessIrreflexive` | src/app/page.tsx:162-163 | No string is `<` itself. |
| `Text.StrLessTransitive` | src/app/page.tsx:162-163 | String `<` is transitive. |
| `Text.StrLessTotal` | src/app/page.tsx:162-163 | Of two different strings one is `<` the other, so the comparator sees a total order. |
| `Text.DecimalString` | src/app/page.tsx:72-73 | The decimal text of an integer starts with a minus sign exactly when the number is negative. Every other character is a digit. The digits read back as the number's magnitude. There are no leading zeros: the digits start with `0` only for the number 0. |
| `Text.NatStringRoundTrip` | src/app/page.tsx:72-73 | Reading the digits back gives the number, so distinct numbers have distinct texts. |
| `Text.DecimalStringLower` | src/app/page.tsx:72-75 | Lower-casing the decimal text of a number does not change it. |
| `Ordering.Less` | src/app/page.tsx:162-163 | `a[key] < b[key]`, and the order the store's sort uses (backend/app.py:62): numbers numerically, strings by `StrLess`, `false` before `true`, and values of different kinds by kind. |
| `Ordering.LessTrichotomy` | src/app/page.tsx:162-164 | On column values, exactly one of `u < v`, `u == v`, `v < u` holds. |
| `Ordering.NotAfterTotal` | src/app/page.tsx:161-165 | Of any two values, one may come before the other, in either direction. |
| `Ordering.NotAfterTransitive` | src/app/page.tsx:161-165 | "May come before" is transitive, in either direction. |
| `Ordering.Insert` | src/app/page.tsx:161-165 | Inserting adds exactly one copy of the element and keeps an ordered sequence ordered. |
| `Ordering.SortOn` | src/app/page.tsx:161-165 | The sorted sequence is a permutation of the input and is ordered by the key in the chosen direction. |
| `Sequences.MapPermutation` | backend/app.py:62-64 | Stripping `_id` from the documents of two permutations of one another gives two permutations of one another. |
| `Sequences.Filter` | src/app/page.tsx:68-76 | `Array.prototype.filter`: every kept element passes the test, and the result is no longer than the input. |
| `Sequences.FilterCount` | src/app/page.tsx:68-76 | The filter keeps every copy of an element that passes the test and no copy of one that fails it. |
| `Sequences.FilterConcat` | src/app/page.tsx:68-76 | Filtering a concatenation concatenates the filtered parts, so the filter keeps the input's order. |
| `Sequences.FilterAll` | src/app/page.tsx:68-76 | When every element passes the test, the filter returns the input unchanged. |
| `Sequences.FilterAgree` | src/app/page.tsx:68-76 | Two tests that agree on every element give the same result. |
| `Directory.Strip` | backend/app.py:25 | Dropping `_id` keeps one record per document, in order, each the document's record. |
| `Directory.FindEmail` | backend/app.py:20-21 | `find_one` by e-mail returns the first document with that e-mail, and returns none exactly when no document has it. |
| `Directory.CustomerCollection.IsDuplicate` | backend/app.py:20-21 | `is_duplicate` holds exactly when some stored document has the e-mail. |
| `Directory.CustomerCollection.Customers` | backend/app.py:23-26 | `GET /customers` lists one record per stored document, in the store's order, without `_id`. |
| `Directory.AppendKeepsEmailsUnique` | backend/app.py:30-32 | Inserting a record whose e-mail is not stored keeps e-mails pairwise distinct. |
| `Directory.OverwriteKeepsEmailsUnique` | backend/app.py:37-40 | An update keeps e-mails distinct when the new e-mail is the old one or is unused. |
| `Directory.UpdateCanDuplicateEmail` | backend/app.py:36-41 | An update that gives Ann Bob's e-mail is accepted and leaves two documents with one e-mail. |
| `Directory.UpdateDuplicatesEmail` | backend/app.py:36-41 | On a collection holding Ann and Bob, the update endpoint answers 200 to giving Ann Bob's e-mail, and the collection then holds two documents with one e-mail. |
| `Directory.DeleteRemovesOnlyCopy` | backend/app.py:47-49 | With distinct e-mails, deleting the first match leaves no document with that e-mail, and e-mails stay distinct. |
| `Directory.ParseSortField` | backend/app.py:61 | The key check accepts exactly `name`, `email` and `fav_number`, and maps each to its own field. |
| `Directory.ActiveIsNotASortKey` | backend/app.py:61 | `active` is rejected as a sort key. |
| `Directory.FieldValue` | backend/app.py:62 | The field `.sort(by)` reads: name and e-mail give strings, and the favourite number gives a number. |
| `Directory.CustomerCollection.AddCustomer` | backend/app.py:28-33 | A stored e-mail gives 400 and changes nothing. Otherwise the record is appended, the list grows by exactly it, 201 returns it, and distinct e-mails stay distinct. |
| `Directory.CustomerCollection.UpdateCustomer` | backend/app.py:35-43 | An unknown e-mail gives 404 and changes nothing. Otherwise the first match gets the new fields and keeps its `_id`, every other document is unchanged, and 200 returns the new data. |
| `Directory.CustomerCollection.DeleteCustomer` | backend/app.py:45-51 | An unknown e-mail gives 404 and changes nothing. Otherwise exactly the first match is removed and 200 returns the success message. With distinct e-mails, none with that e-mail remains. |
| `Directory.PopIds` | backend/app.py:63-64 | The loop that pops `_id` yields each sorted document's record, in the sorted order. |
| `Directory.StripKeepsOrder` | backend/app.py:62-64 | Records taken from documents sorted by a field are still sorted by that field. |
| `Directory.CustomerCollection.SortCustomers` | backend/app.py:59-67 | A key outside the whitelist gives 400. A valid key gives 200 with a permutation of all records, without `_id`, ascending by that key. |
| `CustomerPage.WithInput` | src/app/page.tsx:58-64 | The named input takes the value; the other inputs and the active flag keep theirs. |
| `CustomerPage.DraftOf` | src/app/page.tsx:113-118 | The draft copies the name, e-mail and active flag. Its number is the number's `DecimalString`, which reads back as the number. |
| `CustomerPage.Matches` | src/app/page.tsx:69-75 | The filter callback. The empty term matches every customer. A term equal, up to case, to the name or the e-mail matches. A matching term is no longer than the name, the e-mail or the number's text. |
| `CustomerPage.SearchFilter` | src/app/page.tsx:66-78 | Every kept customer matches the term, and the result is no longer than the list. |
| `CustomerPage.SearchFilterCount` | src/app/page.tsx:68-76 | Each customer occurs in the result as often as in the list if it matches the term, and not at all otherwise. |
| `CustomerPage.SearchFilterConcat` | src/app/page.tsx:68-76 | Filtering a concatenation is concatenating the filtered parts, so the original order is kept. |
| `CustomerPage.EmptyTermKeepsAll` | src/app/page.tsx:68-76 | An empty term keeps the whole list, in order. |
| `CustomerPage.SearchIgnoresTermCase` | src/app/page.tsx:70-75 | A term and its lower-cased form select the same customers. |
| `CustomerPage.NextDirection` | src/app/page.tsx:155-158 | A click on another column gives ascending. A click on the sorted column flips its direction. |
| `CustomerPage.Click` | src/app/page.tsx:155-159 | After a click the configuration names the clicked column. Its direction flips when that column was already sorted, and is ascending otherwise. |
| `CustomerPage.NewColumnSortsAscending` | src/app/page.tsx:154-159 | A click on a column other than the sorted one sorts ascending. |
| `CustomerPage.ClicksAlternate` | src/app/page.tsx:154-159 | From the first click on, repeated clicks on one column alternate between the two directions. |
| `CustomerPage.FirstNameClickSortsDescending` | src/app/page.tsx:36-39 | From the initial name/ascending configuration, the first click on Name sorts descending and the second ascending. |
| `CustomerPage.KeyOf` | src/app/page.tsx:162-163 | `a[key]`: name and e-mail give strings, the favourite number gives a number, and active gives a flag. Each column has one kind of value. |
| `CustomerPage.Compare` | src/app/page.tsx:161-165 | The comparator returns -1, 0 or 1. It returns 0 exactly for equal keys, and at most 0 exactly when the first customer may precede the second in the chosen direction. |
| `CustomerPage.CompareAntisymmetric` | src/app/page.tsx:161-165 | Swapping the customers negates the comparison, and so does reversing the direction. |
| `CustomerPage.SortView` | src/app/page.tsx:161-166 | The sorted view is a permutation of the view, and no customer in it compares after a later one. |
| `CustomerPage.ToggleMessage` | src/app/page.tsx:146-148 | The toast says "active" exactly when the row was inactive, and "inactive" exactly when it was active. |
| `CustomerPage.Page.constructor` | src/app/page.tsx:26-39 | The page starts with empty lists, the default draft, no edit target, an empty term and name/ascending. |
| `CustomerPage.Page.FetchCustomers` | src/app/page.tsx:49-56 | A fetched list replaces both the list and the view, and the term and sort configuration are kept. A failed fetch changes nothing and logs. |
| `CustomerPage.Page.HandleInputChange` | src/app/page.tsx:58-64 | Only the named input of the draft changes. |
| `CustomerPage.Page.HandleSearchChange` | src/app/page.tsx:66-78 | The view becomes the whole list filtered by the new term. It holds exactly the matching customers of the list, whatever the view was before. |
| `CustomerPage.Page.SortCustomers` | src/app/page.tsx:154-167 | The configuration becomes the clicked key with the toggled direction. The view becomes a permutation of itself in comparator order, and the list is untouched. |
| `CustomerPage.Page.EditCustomer` | src/app/page.tsx:111-119 | The edit target becomes the customer, and the draft becomes its four fields. Nothing is sent. |
| `CustomerPage.Page.AddCustomer` | src/app/page.tsx:80-99 | The draft is posted. Success resets the draft, toasts success and asks for a re-fetch. A 400 keeps the draft and shows the duplicate message. Any other failure keeps the draft and only logs. |
| `CustomerPage.Page.UpdateCustomer` | src/app/page.tsx:121-140 | The draft is put under the edit target's e-mail. Success resets the draft and clears the target. Failure keeps both and logs. |
| `CustomerPage.Page.Submit` | src/app/page.tsx:178 | With an edit target the submit sends an update, otherwise an add. Success leaves the default draft and no target. Failure leaves both as they were. The event is the handler's own: the update or add success toast, the duplicate-e-mail toast for a 400 on add, and otherwise the handler's console line with the error message. |
| `CustomerPage.Page.DeleteCustomer` | src/app/page.tsx:101-109 | A delete by e-mail is sent. Success toasts and asks for a re-fetch. Failure only logs. |
| `CustomerPage.Page.ToggleCustomerStatus` | src/app/page.tsx:142-152 | A toggle by e-mail is sent with no body. Success toasts the new state and asks for a re-fetch. Failure only logs. |
| `CustomerPage.LoadThenSortByName` | src/app/page.tsx:154-166 | On a freshly loaded page, a click on Name shows the list sorted by name, descending. |

## Left out

- HTTP, the request URLs, axios, the React hooks machinery, the JSX markup and the `SortIcon` graphic are not modelled. Replies are parameters, and toasts and logs are returned `Event`s.
- Asynchronous ordering is not modelled. The page does not await the re-fetch after a mutation, so two overlapping requests can resolve in either order. The model runs each re-fetch as its own sequential step.
- The MongoDB connection, the CORS middleware, and pydantic's validation and type coercion of request bodies are not modelled. Neither is the response model's filtering beyond dropping `_id`. Each is foreign library behaviour.
- `GET /customers` is not a separate method. `CustomerCollection.Customers()` is the list it returns.
- `search_customer` (backend/app.py:53-57) is not modelled, because its matching is MongoDB regular-expression semantics.
- The toggle endpoint has no handler in backend/app.py, so toggling is modelled only on the page, as a sent request, a reply and a message.
- The store's generated `_id` is modelled as a counter that is always above every `_id` in use.
- Text.Lower: lower-cases ASCII letters only. `toLowerCase` also folds other Unicode letters.
- Text.StrLess: compares characters by code point. The store compares strings by their UTF-8 bytes, which gives the same order. JavaScript compares UTF-16 code units, which differs from code-point order only between characters above U+FFFF and characters from U+E000 to U+FFFF.
- Directory.CustomerCollection.AddCustomer: each request is one atomic step. The endpoints are plain functions that FastAPI runs on a thread pool, and the collection has no unique index on `email`. Two overlapping posts with one e-mail, such as a double-clicked submit, can both pass the duplicate check (backend/app.py:30) before either insert (backend/app.py:32). So e-mails stay distinct only when requests are handled one at a time.
- Directory.CustomerCollection.AddCustomer: `favNumber` is an unbounded integer. The store's driver rejects an integer outside the signed 64-bit range, and the insert (backend/app.py:32) would then fail with 500 and store nothing. The model stores the record and answers 201.
- Directory.CustomerCollection.UpdateCustomer: the same 64-bit limit applies to the update (backend/app.py:40). The model answers 200 and overwrites, where the service would fail with 500 and change nothing.
- Text.DecimalString: gives every digit of an unbounded integer. On the page `fav_number` is a JavaScript number. Above 2^53 it has lost precision, and from 10^21 on, `toString()` gives exponent notation such as "1e+21". The search text of such a number differs from the model's.
- Ordering.Less: the cross-type rank only matters when one column mixes value types. In this model every column has a single type. The page's mixed comparisons are not modelled: `fav_number` is a string in the form but a number from the service.
- CustomerPage.SortView: promises a permutation in comparator order but not stability. `Array.prototype.sort` is stable. The store's sort gives no stability promise either (`Directory.CustomerCollection.SortCustomers`).
- CustomerPage.Page.UpdateCustomer: requires an edit target. The only caller, the submit dispatch, calls it only when one exists. Without one, the page would log a type error.
- CustomerPage.DraftOf: the draft holds the decimal text of the favourite number, which is what the form shows. The page keeps the number itself until the input is edited.
- Customers on the page carry an `active` flag, as the page expects. The service's schema has none, so the page would see `undefined` there.
