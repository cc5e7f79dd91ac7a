# Book management system: the book collection

This project models the logic of a small desktop book manager that runs in
memory. A `Book` is a value with three strings: title, author and ISBN. The
`BookManagementSystem` owns an ordered collection of books. The collection
starts with fifteen literal records and changes only by appending. It offers
three operations:

- `add_book` appends a book at the end.
- `view_books` returns the collection as it stands.
- `search_books` returns, in collection order, every book whose lower-cased
  title or lower-cased author contains the lower-cased query.

The add-book form of `BookManagementApp` builds and adds a book only when
title, author and ISBN are all non-empty. Otherwise the collection stays as
it was and an error notice is shown.

Files:

- `text.dfy` (module `Text`): ASCII lower-casing (`str.lower()`) and substring
  containment (`q in s`). `Contains` is proved equal to "there is a position
  where `q` occurs".
- `catalog.dfy` (module `Catalog`): the `Book` datatype, the seed `Seed`, the
  match condition `Matches` and the search `Filter`. `IsSearchResult` says what
  a search result is without saying how it is computed: a subsequence of the
  collection that holds only matching books, and holds each matching book as
  often as the collection does. `Filter` is proved to meet it, and
  `SearchResultUnique` proves that nothing else does.
- `book_management.dfy` (module `BookManagement`): the class
  `BookManagementSystem` with its `books: seq<Book>` field; the form guard
  `BookFromForm`; and the class `BookManagementApp`, whose `AddBook` updates the
  collection through the guard.
- `seed_search.dfy` (module `SeedSearch`): concrete facts about the seed
  records and the example queries "Orwell", "the" and "Dune", with the exact
  result of each search, and two sessions with a new `BookManagementSystem`
  that run those searches through the class.

Where the definitions sit in the source:

- `Catalog.Book` is the `Book` class (app.py:34-38), with its three fields.
- `Catalog.Seed` is the literal list built by `BookManagementSystem.__init__`
  (app.py:42-58), record for record.
- `Catalog.Matches` is the condition of the list comprehension in
  `search_books` (app.py:67).
- `BookManagement.Filled` is Python truthiness of one entry text in the guard
  `if title and author and isbn` (app.py:155), and `Complete` applies it to
  all three fields of a book.
- `BookManagement.Notice` stands for the message box shown by the form
  handler. `AddedNotice` is the `showinfo` call (app.py:159) and
  `MissingFieldsNotice` the `showerror` call (app.py:162), with their
  headings and texts.
- `BookManagement.AfterAdds` names the collection after `add_book`
  (app.py:60-61) has been called once per book of a list, one call at a time;
  `AddAll` makes those calls on a `BookManagementSystem` object.

Remarks on the example queries. Searching the seed for "the" returns exactly
the five titles that begin with "The" followed by "Wuthering Heights",
because "the" occurs inside "Wuthering". `SearchTheSeed` proves this exact
list, so searching for "the" does not return only the five titles that begin
with "The".
Searching the seed for "Orwell" returns "1984" alone, and "Dune" matches no
seed record. Whitespace-only fields count as filled in, because the guard
relies on Python truthiness (`if title and author and isbn`).

## Model

| member | source | states |
|---|---|---|
| Text.LowerChar | app.py:67 | lower-casing one character leaves no ASCII capital; it maps a capital to its small letter and leaves every other character as it is |
| Text.Lower | app.py:67 | the model's lowering keeps the length and lower-cases each position independently |
| Text.LowerIdempotent | app.py:67 | lower-casing an already lower-cased string changes nothing |
| Text.EqualIgnoringCaseLower | app.py:67 | two strings differ only in letter case exactly when their lower-cased forms are equal (both directions) |
| Text.Contains | app.py:67 | `q in s` is true exactly when `q` occurs in `s` at some position |
| Text.ContainsLower | app.py:67 | a verbatim occurrence of the query is still an occurrence after both sides are lower-cased |
| Text.ContainsEmpty | app.py:67 | the empty query is contained in every string |
| Text.ContainedInEmpty | app.py:67 | an empty field contains only the empty query |
| Text.AbsentLetter | app.py:67 | a query holding a letter that no lower-cased character of the field equals is not contained in the lower-cased field |
| Text.AbsentPair | app.py:67 | a query holding two adjacent letters that never stand side by side in the lower-cased field is not contained in it |
| Catalog.Filter | app.py:66-67 | every result book is in the collection and matches; every matching collection book is in the result (soundness and completeness); the result is no longer than the collection |
| Catalog.FilterIsSubsequence | app.py:67 | the result keeps the collection's relative order: it is a subsequence of the collection |
| Catalog.FilterMultiplicity | app.py:67 | a matching book occurs in the result as often as in the collection, and a book that does not match occurs zero times |
| Catalog.SubsequenceMultiset | app.py:67 | a subsequence holds no element more often than its source, so search never invents records |
| Catalog.FilterIsSearchResult | app.py:67 | the list comprehension computes a search result as described independently by `IsSearchResult` |
| Catalog.SearchResultUnique | app.py:67 | any sequence that meets the description `IsSearchResult` equals the comprehension's output |
| Catalog.FilterEmptyQuery | app.py:67 | the empty query returns the whole collection, in its original order |
| Catalog.FilterIgnoresCase | app.py:67 | two queries that differ only in letter case return identical results |
| Catalog.FilterAppend | app.py:67 | searching a concatenation gives the result for the first part followed by the result for the second |
| Catalog.FilterSnoc | app.py:60-67 | after one book is appended, the result gains that book at its end exactly when the book matches |
| Catalog.FilterIdempotent | app.py:67 | searching a search result again with the same query changes nothing |
| Catalog.VerbatimMatch | app.py:67 | a query that occurs verbatim in the title or the author finds the book |
| Catalog.FilterFinds | app.py:67 | a matching book at any position of the collection is in the result |
| Catalog.Matches | app.py:67 | the empty query matches every book; a book matches only a query that is no longer than its title or its author |
| Catalog.FilterAt | app.py:66-67 | when the matching books are exactly those at a list of increasing positions, the search returns the books at those positions, in that order, and nothing else |
| BookManagement.BookManagementSystem.constructor | app.py:41-58 | a new collection holds exactly the fifteen seed records, in the listed order |
| BookManagement.BookManagementSystem.AddBook | app.py:60-61 | the length grows by one, the new book is last, every earlier book keeps its place, and nothing else changes |
| BookManagement.BookManagementSystem.ViewBooks | app.py:63-64 | returns the collection as it stands, with no reordering or filtering |
| BookManagement.BookManagementSystem.SearchBooks | app.py:66-67 | the result is the search result over the current collection: it holds a book exactly when that book is in the collection and matches |
| BookManagement.AfterAdds | app.py:60-61 | a run of adds lengthens the collection by the number of added books and leaves the earlier books as its unchanged prefix |
| BookManagement.AfterAddsAppends | app.py:60-61 | whatever run of `add_book` calls is made, the collection is exactly the earlier books followed by the added ones, in call order |
| BookManagement.SearchAfterAdds | app.py:60-67 | after a run of adds, a search returns exactly the earlier result followed by the matching added books, in call order |
| BookManagement.AddAll | app.py:60-67 | calling `add_book` on one manager object once per book, in order, leaves the collection `AfterAdds` describes, and every search on it then returns its earlier result followed by the matching added books |
| BookManagement.BookFromForm | app.py:155-156 | a book is built exactly when title, author and ISBN are all non-empty, and it is the book made of those three fields |
| BookManagement.SeedComplete | app.py:42-58 | every seed record has a non-empty title, author and ISBN |
| BookManagement.BookManagementApp.constructor | app.py:72 | the application starts with a new manager holding the seed, and every record it holds has all fields filled in |
| BookManagement.BookManagementApp.AddBook | app.py:150-162 | with all fields filled in, the book is appended and the success notice is shown; otherwise the collection is unchanged and the "All fields are required!" notice is shown; every held book keeps all fields filled in |
| SeedSearch.SeedShape | app.py:42-58 | the seed has fifteen records, with "1984" second and "Wuthering Heights" fourteenth |
| SeedSearch.OrwellMatches1984 | app.py:44 | "Orwell" matches "1984" through its author, ignoring case |
| SeedSearch.SearchOrwellFinds1984 | app.py:42-67 | searching the seed for "Orwell" returns exactly one book, "1984" by George Orwell |
| SeedSearch.TheMatchesWutheringHeights | app.py:56 | "the" matches "Wuthering Heights" through its title |
| SeedSearch.SearchTheSeed | app.py:42-67 | searching the seed for "the" returns exactly the five "The ..." records in seed order followed by "Wuthering Heights" |
| SeedSearch.DuneMatches | app.py:67 | "Dune" matches the book "Dune" through its title |
| SeedSearch.OrwellVerdicts | app.py:42-67 | "Orwell" matches the seed record at position 1 ("1984") and no other |
| SeedSearch.TheVerdicts | app.py:42-67 | "the" matches exactly the seed records at positions 3, 7, 9, 10, 12 and 13 |
| SeedSearch.DuneVerdicts | app.py:42-67 | "Dune" matches no seed record |
| SeedSearch.SearchDuneAfterAdd | app.py:42-67 | searching the seed for "Dune" returns nothing; once "Dune" is appended, it returns exactly that one book |
| SeedSearch.SearchNewCollection | app.py:41-67 | on a new manager, `search_books("Orwell")` returns exactly "1984" and `search_books("the")` the six records above |
| SeedSearch.AddDuneToNewCollection | app.py:41-67 | on a new manager, after `add_book` with "Dune", `view_books` returns the fifteen seed records followed by "Dune" and `search_books("Dune")` returns exactly "Dune" |

## Left out

- Package installation (`install_and_import` and the loop over modules, app.py:1-26): terminal I/O, a pip subprocess and process exit.
- All widget code, app.py:29-32, 70-153 and 163-186: window, tabs, entries, buttons, tree views, clearing the form and `mainloop`. The texts typed into the entries become the parameters of `BookManagementApp.AddBook`. The message box becomes its returned `Notice`.
- Text.Lower: Python's `str.lower()` can lengthen a string (`'İ'` lowers to `'i'` followed by U+0307) and lowers `'Σ'` to `'ς'` or `'σ'` depending on whether it ends a word; the model lowers one character at a time, with no context, so the lowered string always has the original length.
- Text.LowerChar: lower-cases ASCII capitals only. Python's `str.lower()` follows Unicode (for example `'É'` becomes `'é'`). Case-insensitivity is proved relative to this ASCII lowering.
- BookManagement.BookManagementSystem.ViewBooks: returns the list as a value. Python returns the live list object, which a caller could then mutate; the model has no such aliasing.
- Inside the guard's success branch, refreshing the books tree view and clearing the entries (app.py:158, 160) are widget calls and are not modelled; the message boxes (app.py:159, 162) are the returned `Notice`.
- Searching from the search tab (app.py:175-181) only clears and fills a tree view with `search_books`' result, so `SearchBooks` covers it.
- Object identity: Python compares `Book` objects by identity and the list holds references to them, so two books with the same fields are distinct objects there. `Catalog.Book` is a value that compares by its fields, so statements about membership and multiplicity (`Filter`, `FilterMultiplicity`, `IsSearchResult`) count books with equal fields together, where Python would tell the objects apart. No operation of the core itself compares two books.
