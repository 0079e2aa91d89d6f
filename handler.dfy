/**
 * The five request handlers of the bookshelf service over its ordered, in-memory
 * collection of books. The read-only handlers are functions of the collection; the
 * three that change it are methods of the store object that owns it.
 */
module Handler {
  import opened Wrappers
  import opened Text
  import opened Sequences
  import opened Books

  datatype Status = Success | Fail

  /** The `data` member of a response body. */
  datatype Data =
    | NoData
    | BookIdData(bookId: string)
    | BooksData(books: seq<BookSummary>)
    | BookData(book: Book)

  /** A response: the body's `status`, optional `message` and `data`, and the HTTP status code. */
  datatype Response = Response(status: Status, message: Option<string>, code: int, data: Data)

  /** The query of the list request. `reading` and `finished` are the numbers `+x` of their strings. */
  datatype Query = Query(name: Option<string>, reading: Option<int>, finished: Option<int>)

  const AddNoNameMessage := "Gagal menambahkan buku. Mohon isi nama buku"
  const AddReadPageMessage := "Gagal menambahkan buku. readPage tidak boleh lebih besar dari pageCount"
  const AddedMessage := "Buku berhasil ditambahkan"
  const NotFoundMessage := "Buku tidak ditemukan"
  const EditNoNameMessage := "Gagal memperbarui buku. Mohon isi nama buku"
  const EditReadPageMessage := "Gagal memperbarui buku. readPage tidak boleh lebih besar dari pageCount"
  const EditNotFoundMessage := "Gagal memperbarui buku. Id tidak ditemukan"
  const EditedMessage := "Buku berhasil diperbarui"
  const DeleteNotFoundMessage := "Buku gagal dihapus. Id tidak ditemukan"
  const DeletedMessage := "Buku berhasil dihapus"

  /** A failure body with its message and status code. */
  function Failure(code: int, message: string): Response {
    Response(Fail, Some(message), code, NoData)
  }

  /** `Boolean(+x)`: every number but zero is true. */
  predicate Truthy(x: int) {
    x != 0
  }

  // The callbacks of the three `filter` passes of the list handler.

  function NameFilter(needle: string): Book -> bool {
    (b: Book) => NameMatches(b.name, needle)
  }

  function ReadingFilter(flag: bool): Book -> bool {
    (b: Book) => b.reading == flag
  }

  function FinishedFilter(flag: bool): Book -> bool {
    (b: Book) => b.finished == flag
  }

  // The three passes; each is skipped when its query parameter is absent (or, for the name, empty).

  function ByName(books: seq<Book>, name: Option<string>): (r: seq<Book>)
    ensures |r| <= |books|
    ensures !NonEmpty(name) ==> r == books
    ensures NonEmpty(name) ==> forall i :: 0 <= i < |r| ==> r[i] in books && NameMatches(r[i].name, name.value)
  {
    if NonEmpty(name) then Filter(books, NameFilter(name.value)) else books
  }

  function ByReading(books: seq<Book>, reading: Option<int>): (r: seq<Book>)
    ensures |r| <= |books|
    ensures reading.None? ==> r == books
    ensures reading.Some? ==> forall i :: 0 <= i < |r| ==> r[i] in books && r[i].reading == Truthy(reading.value)
  {
    if reading.Some? then Filter(books, ReadingFilter(Truthy(reading.value))) else books
  }

  function ByFinished(books: seq<Book>, finished: Option<int>): (r: seq<Book>)
    ensures |r| <= |books|
    ensures finished.None? ==> r == books
    ensures finished.Some? ==> forall i :: 0 <= i < |r| ==> r[i] in books && r[i].finished == Truthy(finished.value)
  {
    if finished.Some? then Filter(books, FinishedFilter(Truthy(finished.value))) else books
  }

  // Reference definition of the list filter: a book is listed when it meets every
  // condition the query imposes; an absent or empty name imposes none.

  predicate NameOk(b: Book, name: Option<string>) {
    NonEmpty(name) ==> NameMatches(b.name, name.value)
  }

  predicate ReadingOk(b: Book, reading: Option<int>) {
    reading.Some? ==> b.reading == Truthy(reading.value)
  }

  predicate FinishedOk(b: Book, finished: Option<int>) {
    finished.Some? ==> b.finished == Truthy(finished.value)
  }

  predicate Selected(b: Book, q: Query) {
    NameOk(b, q.name) && ReadingOk(b, q.reading) && FinishedOk(b, q.finished)
  }

  function NameOkBy(name: Option<string>): Book -> bool {
    (b: Book) => NameOk(b, name)
  }

  function NameReadingOkBy(name: Option<string>, reading: Option<int>): Book -> bool {
    (b: Book) => NameOk(b, name) && ReadingOk(b, reading)
  }

  function SelectedBy(q: Query): Book -> bool {
    (b: Book) => Selected(b, q)
  }

  /** The list handler: up to three successive filters over the collection, then the projection. */
  function GetAllBooks(books: seq<Book>, q: Query): (r: Response)
    ensures r.status == Success && r.code == 200 && r.message == None
    ensures r.data.BooksData? && |r.data.books| <= |books|
  {
    var listed := ByFinished(ByReading(ByName(books, q.name), q.reading), q.finished);
    Response(Success, None, 200, BooksData(Project(listed)))
  }

  lemma ByNameIsFilter(books: seq<Book>, name: Option<string>)
    ensures ByName(books, name) == Filter(books, NameOkBy(name))
  {
    if NonEmpty(name) {
      FilterExt(books, NameFilter(name.value), NameOkBy(name));
    } else {
      FilterKeepsAll(books, NameOkBy(name));
    }
  }

  lemma ByReadingIsFilter(books: seq<Book>, name: Option<string>, reading: Option<int>)
    ensures ByReading(Filter(books, NameOkBy(name)), reading) == Filter(books, NameReadingOkBy(name, reading))
  {
    var s := Filter(books, NameOkBy(name));
    var p := (b: Book) => ReadingOk(b, reading);
    if reading.Some? {
      FilterExt(s, ReadingFilter(Truthy(reading.value)), p);
    } else {
      FilterKeepsAll(s, p);
    }
    FilterCompose(books, NameOkBy(name), p, NameReadingOkBy(name, reading));
  }

  lemma ByFinishedIsFilter(books: seq<Book>, q: Query)
    ensures ByFinished(Filter(books, NameReadingOkBy(q.name, q.reading)), q.finished) == Filter(books, SelectedBy(q))
  {
    var s := Filter(books, NameReadingOkBy(q.name, q.reading));
    var p := (b: Book) => FinishedOk(b, q.finished);
    if q.finished.Some? {
      FilterExt(s, FinishedFilter(Truthy(q.finished.value)), p);
    } else {
      FilterKeepsAll(s, p);
    }
    FilterCompose(books, NameReadingOkBy(q.name, q.reading), p, SelectedBy(q));
  }

  /**
   * The list handler returns the projection of exactly the books the query selects,
   * in the order of the collection.
   */
  lemma GetAllBooksSelects(books: seq<Book>, q: Query)
    ensures GetAllBooks(books, q).data.books == Project(Filter(books, SelectedBy(q)))
  {
    ByNameIsFilter(books, q.name);
    ByReadingIsFilter(books, q.name, q.reading);
    ByFinishedIsFilter(books, q);
  }

  /** With no filter in the query, the list holds every book, projected, in collection order. */
  lemma GetAllBooksUnfiltered(books: seq<Book>)
    ensures GetAllBooks(books, Query(None, None, None)).data.books == Project(books)
  {
    GetAllBooksSelects(books, Query(None, None, None));
    FilterKeepsAll(books, SelectedBy(Query(None, None, None)));
  }

  /** Every listed summary is that of a stored book the query selects, and every such book is listed. */
  lemma GetAllBooksMembers(books: seq<Book>, q: Query)
    ensures forall k :: 0 <= k < |GetAllBooks(books, q).data.books| ==>
      exists b :: b in books && Selected(b, q) && GetAllBooks(books, q).data.books[k] == BookSummary(b.id, b.name, b.publisher)
    ensures forall i :: 0 <= i < |books| && Selected(books[i], q) ==>
      BookSummary(books[i].id, books[i].name, books[i].publisher) in GetAllBooks(books, q).data.books
  {
    GetAllBooksSelects(books, q);
    var kept := Filter(books, SelectedBy(q));
    forall k | 0 <= k < |kept|
      ensures kept[k] in books && Selected(kept[k], q)
    {
      assert SelectedBy(q)(kept[k]);
    }
    forall i | 0 <= i < |books| && Selected(books[i], q)
      ensures BookSummary(books[i].id, books[i].name, books[i].publisher) in Project(kept)
    {
      assert SelectedBy(q)(books[i]);
      var k :| 0 <= k < |kept| && kept[k] == books[i];
      assert Project(kept)[k] == BookSummary(books[i].id, books[i].name, books[i].publisher);
    }
  }

  /** Adding a book extends the list by its summary exactly when the query selects it. */
  lemma GetAllBooksAfterAppend(books: seq<Book>, b: Book, q: Query)
    ensures GetAllBooks(books + [b], q).data.books ==
      GetAllBooks(books, q).data.books + (if Selected(b, q) then [BookSummary(b.id, b.name, b.publisher)] else [])
  {
    var kept := Filter(books, SelectedBy(q));
    var tail := Filter([b], SelectedBy(q));
    assert tail == if Selected(b, q) then [b] else [] by {
      assert [b][1..] == [];
    }
    calc {
      GetAllBooks(books + [b], q).data.books;
      { GetAllBooksSelects(books + [b], q); }
      Project(Filter(books + [b], SelectedBy(q)));
      { FilterAppend(books, [b], SelectedBy(q)); }
      Project(kept + tail);
      { ProjectAppend(kept, tail); }
      Project(kept) + Project(tail);
      { GetAllBooksSelects(books, q); }
      GetAllBooks(books, q).data.books + Project(tail);
    }
  }

  /** The get handler: the first book with the id, or a 404 failure. */
  function GetBookById(books: seq<Book>, id: string): (r: Response)
    ensures r.status == Fail <==> Fresh(books, id)
    ensures r.status == Fail ==> r == Failure(404, NotFoundMessage)
    ensures r.status == Success ==>
      && r.code == 200 && r.message == None && r.data.BookData?
      && exists i :: 0 <= i < |books| && books[i] == r.data.book && books[i].id == id
           && forall j :: 0 <= j < i ==> books[j].id != id
  {
    match FindIndex(books, id)
    case None => Failure(404, NotFoundMessage)
    case Some(i) => Response(Success, None, 200, BookData(books[i]))
  }

  /** A book just added under a fresh id is returned in full, finished iff fully read, never updated. */
  lemma AddThenGet(books: seq<Book>, p: Payload, id: string, now: string)
    requires NonEmpty(p.name) && Fresh(books, id)
    ensures GetBookById(books + [NewBook(p, id, now)], id) == Response(Success, None, 200, BookData(NewBook(p, id, now)))
    ensures GetBookById(books + [NewBook(p, id, now)], id).data.book.finished == (p.readPage == p.pageCount)
    ensures GetBookById(books + [NewBook(p, id, now)], id).data.book.insertedAt == GetBookById(books + [NewBook(p, id, now)], id).data.book.updatedAt
  {
    AppendFresh(books, NewBook(p, id, now));
  }

  /** After an edit, the get handler returns the edited record. */
  lemma EditThenGet(books: seq<Book>, id: string, p: Payload, now: string, i: nat)
    requires NonEmpty(p.name) && FindIndex(books, id) == Some(i)
    ensures GetBookById(books[i := Updated(books[i], p, now)], id) == Response(Success, None, 200, BookData(Updated(books[i], p, now)))
  {
    ReplaceSameId(books, i, Updated(books[i], p, now));
  }

  /** After a delete, with distinct ids, the get handler no longer finds the id. */
  lemma DeleteThenGet(books: seq<Book>, id: string, i: nat)
    requires IdsDistinct(books) && FindIndex(books, id) == Some(i)
    ensures GetBookById(books[..i] + books[i + 1..], id) == Failure(404, NotFoundMessage)
  {
    RemoveAt(books, i);
  }

  /**
   * In a well-formed collection, the record the get handler returns and every summary
   * the list handler returns carry the record invariants: a non-empty name, and for the
   * returned record also `readPage <= pageCount` and a consistent `finished`.
   */
  lemma ReturnedRecordsWellFormed(books: seq<Book>, id: string, q: Query)
    requires AllWellFormed(books)
    ensures GetBookById(books, id).status == Success ==> WellFormed(GetBookById(books, id).data.book)
    ensures forall k :: 0 <= k < |GetAllBooks(books, q).data.books| ==> GetAllBooks(books, q).data.books[k].name != ""
  {
    GetAllBooksMembers(books, q);
  }

  /** The store: the module-level `books` array of the service, owned by one object. */
  class BookShelf {
    var books: seq<Book>

    /** Every stored record has a name, `readPage <= pageCount` and a consistent `finished`. */
    ghost predicate Valid()
      reads this
    {
      AllWellFormed(books)
    }

    constructor ()
      ensures Valid() && books == []
    {
      books := [];
    }

    /** POST /books. The id and the timestamp are supplied by the caller. */
    method AddBook(p: Payload, id: string, now: string) returns (r: Response)
      requires Valid()
      modifies this
      ensures Valid()
      ensures !NonEmpty(p.name) ==> r == Failure(400, AddNoNameMessage) && books == old(books)
      ensures NonEmpty(p.name) && p.readPage > p.pageCount ==>
        r == Failure(400, AddReadPageMessage) && books == old(books)
      ensures NonEmpty(p.name) && p.readPage <= p.pageCount ==>
        && r == Response(Success, Some(AddedMessage), 201, BookIdData(id))
        && books == old(books) + [NewBook(p, id, now)]
      ensures IdsDistinct(old(books)) && Fresh(old(books), id) ==> IdsDistinct(books)
    {
      if !NonEmpty(p.name) {
        return Failure(400, AddNoNameMessage);
      }
      if p.readPage > p.pageCount {
        return Failure(400, AddReadPageMessage);
      }
      var book := NewBook(p, id, now);
      if Fresh(books, id) {
        AppendFresh(books, book);
      }
      books := books + [book];
      r := Response(Success, Some(AddedMessage), 201, BookIdData(id));
    }

    /** PUT /books/{id}. Both payload checks come before the search for the id. */
    method EditBookById(id: string, p: Payload, now: string) returns (r: Response)
      requires Valid()
      modifies this
      ensures Valid()
      ensures !NonEmpty(p.name) ==> r == Failure(400, EditNoNameMessage) && books == old(books)
      ensures NonEmpty(p.name) && p.readPage > p.pageCount ==>
        r == Failure(400, EditReadPageMessage) && books == old(books)
      ensures NonEmpty(p.name) && p.readPage <= p.pageCount ==>
        match FindIndex(old(books), id)
        case None => r == Failure(404, EditNotFoundMessage) && books == old(books)
        case Some(i) =>
          && r == Response(Success, Some(EditedMessage), 200, NoData)
          && books == old(books)[i := Updated(old(books)[i], p, now)]
      ensures IdsDistinct(old(books)) ==> IdsDistinct(books)
    {
      if !NonEmpty(p.name) {
        return Failure(400, EditNoNameMessage);
      }
      if p.readPage > p.pageCount {
        return Failure(400, EditReadPageMessage);
      }
      var index := FindIndex(books, id);
      if index.None? {
        return Failure(404, EditNotFoundMessage);
      }
      var book := Updated(books[index.value], p, now);
      ReplaceSameId(books, index.value, book);
      books := books[index.value := book];
      r := Response(Success, Some(EditedMessage), 200, NoData);
    }

    /** DELETE /books/{id}: splice out the first book with the id. */
    method DeleteBookById(id: string) returns (r: Response)
      requires Valid()
      modifies this
      ensures Valid()
      ensures match FindIndex(old(books), id)
        case None => r == Failure(404, DeleteNotFoundMessage) && books == old(books)
        case Some(i) =>
          && r == Response(Success, Some(DeletedMessage), 200, NoData)
          && books == old(books)[..i] + old(books)[i + 1..]
      ensures IdsDistinct(old(books)) ==> IdsDistinct(books)
    {
      var index := FindIndex(books, id);
      if index.None? {
        return Failure(404, DeleteNotFoundMessage);
      }
      RemoveAt(books, index.value);
      books := books[..index.value] + books[index.value + 1..];
      r := Response(Success, Some(DeletedMessage), 200, NoData);
    }
  }
}
