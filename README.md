# Bookshelf API: the record store and its request handlers

This project models the core of a small bookshelf HTTP service in Dafny. The service keeps its books
in one ordered array in process memory. Five handlers act on it:

- **add** (`POST /books`) validates the payload, derives `finished`, and appends a record.
- **getAll** (`GET /books`) lists `(id, name, publisher)` of the books that pass up to three filters.
  The filters are a case-insensitive name substring, `reading` and `finished`.
- **getById** (`GET /books/{id}`) returns the first record with the id.
- **editById** (`PUT /books/{id}`) validates the payload and then replaces the record's mutable fields in place.
- **deleteById** (`DELETE /books/{id}`) splices the record out.

Layout:

- `wrappers.dfy`: `Option`.
- `text.dfy`: ASCII `toLowerCase`, `includes`, and the name match.
- `sequences.dfy`: `filter` over sequences, with its algebra.
- `books.dfy`: the record, the payload and the summary, record construction and replacement, `findIndex`,
  and the projection.
- `handler.dfy`: the response envelope, the two read-only handlers as functions of the collection, and the
  class `BookShelf`. `BookShelf` owns the collection (`books: seq<Book>`). Its methods `AddBook`,
  `EditBookById` and `DeleteBookById` change it in place.
- `scenarios.dfy`: client request sequences that check the contracts against the worked examples.

A response is `Response(status, message, code, data)`. `code` is the HTTP status, which is 200 where the
source sets none. `message` is absent where the source's body has none. The generated id (`nanoid(16)`)
and the current time (`new Date().toISOString()`) are parameters of the methods.

Three points where the model follows the code, and the code is narrower than a reader might expect:

- The success bodies of getAll and getById carry no `message` (src/handler.js:67-72, 86-91), so
  `GetAllBooks` and `GetBookById` return `message == None`. Every other response has one.
- The `reading`/`finished` query parameters are tested with `Boolean(+x)` (src/handler.js:56, 60). Any
  nonzero number means true, not only 1 (`Truthy`).
- `insertedAt` and `updatedAt` come from the system clock (src/handler.js:11, 126), and nothing checks
  `insertedAt <= updatedAt` or that edits never move `updatedAt` backwards. The model makes no such
  claim.

## Model

| member | source | states |
|---|---|---|
| Text.ToLower | src/handler.js:51 | lower-casing keeps the length, maps each character through ASCII lower-casing, and leaves no capital letter |
| Text.ToLowerIdempotent | src/handler.js:51 | lower-casing an already lower-cased name changes nothing |
| Text.IncludesIff | src/handler.js:51 | `includes` answers true exactly when the needle occurs at some position of the name |
| Text.Includes | src/handler.js:51 | `includes`: an empty needle is always found, and a needle longer than the name never is; the full meaning is given by IncludesIff |
| Text.NameMatches | src/handler.js:49-52 | the name-filter callback holds exactly when the lower-cased query occurs at some position of the lower-cased stored name |
| Text.NameMatchesIgnoresCase | src/handler.js:48-52 | the name match gives the same answer whatever the case of the stored name or of the query |
| Text.NameMatchesExample | src/handler.js:48-52 | the query "dune" matches the stored name "Dune Messiah" |
| Sequences.Filter | src/handler.js:46-61 | a filter pass keeps only elements that pass the test, keeps every element that passes, and never grows the list |
| Sequences.FilterAppend | src/handler.js:46-61 | filtering a concatenation is the concatenation of the filtered parts, so store order is kept |
| Sequences.FilterExt | src/handler.js:46-61 | two callbacks that agree on every element select the same records |
| Sequences.FilterKeepsAll | src/handler.js:46-61 | a pass whose test every record meets returns the list unchanged |
| Sequences.FilterCompose | src/handler.js:46-61 | two successive filter passes equal one pass by the conjunction of their tests |
| Books.NonEmpty | src/handler.js:13 | the truthiness test `!name`: an absent name and `""` are falsy, any other string is truthy (defined directly; other falsy JavaScript values are left out) |
| Books.NewBook | src/handler.js:9-30 | the new record carries the payload's fields and the given id; `insertedAt == updatedAt == now`; `finished` iff `pageCount == readPage`; well-formed when `readPage <= pageCount` |
| Books.Updated | src/handler.js:123-127 | the replacement carries the payload's fields; it keeps `id` and `insertedAt`; `updatedAt` is the given time; `finished` is recomputed |
| Books.FindIndex | src/handler.js:114-116 | `findIndex` by id returns the first index holding the id, or nothing exactly when no record holds it |
| Books.FindIndexIs | src/handler.js:138-140 | an index holding the id with no earlier match is the one `findIndex` returns |
| Books.AppendFresh | src/handler.js:32 | appending a record with a fresh id keeps ids distinct, and the record is found at the end |
| Books.ReplaceSameId | src/handler.js:123-127 | replacing the record at the found index keeps ids distinct, and the id is still found there |
| Books.RemoveAt | src/handler.js:147 | splicing out one record keeps ids distinct; with distinct ids, its id is no longer found |
| Books.Project | src/handler.js:63-65 | the projection has one `(id, name, publisher)` summary per record, in the same order |
| Books.ProjectAppend | src/handler.js:63-65 | projecting a concatenation is concatenating the projections |
| Handler.Truthy | src/handler.js:56 | `Boolean(+x)` on the numeric query value: `x != 0` (defined directly; a NaN conversion is left out) |
| Handler.ByName | src/handler.js:48-53 | the name pass returns the collection unchanged for an absent or empty query; otherwise only stored records whose name matches, never more records; exact selection in ByNameIsFilter |
| Handler.ByReading | src/handler.js:55-57 | the reading pass is skipped for an absent parameter; otherwise it keeps only stored records whose `reading` equals `Truthy` of it |
| Handler.ByFinished | src/handler.js:59-61 | the finished pass is skipped for an absent parameter; otherwise it keeps only stored records whose `finished` equals `Truthy` of it |
| Handler.GetAllBooks | src/handler.js:43-73 | listing always succeeds with 200 and no message, and returns no more summaries than there are records |
| Handler.ByNameIsFilter | src/handler.js:48-53 | the name pass equals a filter by "no non-empty name query, or the name matches" |
| Handler.ByReadingIsFilter | src/handler.js:55-57 | the reading pass after the name pass equals one filter by both conditions |
| Handler.ByFinishedIsFilter | src/handler.js:59-61 | the finished pass after the first two equals one filter by all three conditions |
| Handler.GetAllBooksSelects | src/handler.js:46-65 | the listed summaries are the projection of exactly the records the query selects, in store order |
| Handler.GetAllBooksUnfiltered | src/handler.js:43-73 | with no query parameters every record is listed, projected, in store order |
| Handler.GetAllBooksMembers | src/handler.js:46-65 | every listed summary is that of a selected stored record, and every selected record is listed |
| Handler.GetAllBooksAfterAppend | src/handler.js:32 | after an add, the list gains the new record's summary at the end exactly when the query selects it |
| Handler.GetBookById | src/handler.js:75-92 | fails with 404 and its message exactly when no record has the id; otherwise 200 with the first record that has it |
| Handler.ReturnedRecordsWellFormed | src/handler.js:75-92 | in a well-formed store, the record getById returns has a non-empty name, `readPage <= pageCount` and a consistent `finished`, and every listed summary has a non-empty name |
| Handler.AddThenGet | src/handler.js:27-40 | a book added under a fresh id is then returned in full, with `finished == (readPage == pageCount)` and `insertedAt == updatedAt` |
| Handler.EditThenGet | src/handler.js:114-127 | after an edit, getById returns the replaced record |
| Handler.DeleteThenGet | src/handler.js:138-147 | after a delete, with distinct ids, getById yields 404 |
| Handler.BookShelf.constructor | src/handler.js:2 | the store starts empty and well-formed |
| Handler.BookShelf.AddBook | src/handler.js:4-41 | a missing or empty name fails with 400 first; then `readPage > pageCount` fails with 400; both leave the store unchanged; otherwise exactly one record is appended and 201 returns the id; well-formedness is kept, and distinct ids stay distinct for a fresh id |
| Handler.BookShelf.EditBookById | src/handler.js:94-133 | the name check, then the page check (400), come before the id search (404); every failure leaves the store unchanged; success replaces only the first matching record with `Updated` |
| Handler.BookShelf.DeleteBookById | src/handler.js:135-153 | an unknown id fails with 404 and leaves the store unchanged; otherwise the store becomes `books[..i] + books[i+1..]` for the first matching index `i` |
| Scenarios.AddGetDelete | src/handler.js:4-153 | add a fully read book (201), get it (200, finished), delete it (200), get it again (404) |
| Scenarios.RejectedAdds | src/handler.js:13-25 | an empty name is reported even when the pages are also wrong; neither rejected add leaves a record in the list |
| Scenarios.ListByName | src/handler.js:43-73 | the query name "dune" with reading=1 lists the stored "Dune Messiah" |
| Scenarios.EditUnknownInvalid | src/handler.js:100-121 | an invalid edit of an unknown id yields 400, not 404 |

## Left out

- The HTTP server, its host/port selection, CORS and route wiring (`src/server.js`, `./routes`). These are framework plumbing. `./routes` and `./books` are not part of this model. The store is assumed to start empty.
- Id generation with `nanoid(16)` and the wall clock. Both are taken as parameters. The methods do not require a fresh id. Unique ids are proved only as preserved when the added id is fresh.
- The `h.response(...).code(...)` builder and JSON serialisation. A response is a plain datatype, and the message strings are constants.
- Concurrent requests against the shared array. The model is sequential.
- JavaScript coercions beyond the modelled ones. `name` is an optional string: `undefined`/`null` and `""` are falsy, and other falsy values are not modelled. `year`, `pageCount` and `readPage` are integers, so `readPage > pageCount` on `undefined`, strings, NaN or non-integer numbers (such as `pageCount: 10.5`) is not modelled. `author`, `summary` and `publisher` are always-present strings. In the source a missing one is stored as `undefined`, and a missing `publisher` then drops out of the list summary's JSON; neither is modelled. `reading` in a payload is a boolean. The `reading`/`finished` query parameters are the numbers `+x`, so a string that converts to NaN (false in the source) or to a non-integer number (`+"0.5"`, true in the source) is not modelled.
- Strings are Dafny strings: sequences of Unicode scalar values, not UTF-16 code units, so a lone surrogate in a name cannot be represented.
- Text.ToLower: lower-cases only A–Z. JavaScript's full Unicode case mapping ("É" → "é") is not modelled, so a query that differs from a stored name only in non-ASCII case matches in the source but not in the model.
- The copy `[...books]` in the list handler. Values are immutable here, so the copy has no observable effect.
- Record identity: a returned record is a value, so a client that mutates a `find` result in place is not represented.
