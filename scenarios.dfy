/** Client-side sequences of requests, showing what the handlers' contracts give a caller. */
module Scenarios {
  import opened Wrappers
  import opened Text
  import opened Books
  import opened Handler

  /** Add a fully read book, fetch it, delete it, and fetch it again. */
  method AddGetDelete(id: string, now: string) returns (added: Response, got: Response, deleted: Response, gone: Response)
    ensures added == Response(Success, Some(AddedMessage), 201, BookIdData(id))
    ensures got.code == 200 && got.data.BookData? && got.data.book.finished && got.data.book.name == "Dune"
    ensures deleted == Response(Success, Some(DeletedMessage), 200, NoData)
    ensures gone == Failure(404, NotFoundMessage)
  {
    var shelf := new BookShelf();
    var dune := Payload(Some("Dune"), 1965, "Herbert", "...", "Chilton", 412, 412, false);
    added := shelf.AddBook(dune, id, now);
    got := GetBookById(shelf.books, id);
    deleted := shelf.DeleteBookById(id);
    gone := GetBookById(shelf.books, id);
  }

  /** Rejected adds: the name check comes first, and neither leaves a record behind. */
  method RejectedAdds(id: string, now: string) returns (noName: Response, tooFar: Response, listed: Response)
    ensures noName == Failure(400, AddNoNameMessage)
    ensures tooFar == Failure(400, AddReadPageMessage)
    ensures listed.data == BooksData([])
  {
    var shelf := new BookShelf();
    // An empty name is reported even though readPage exceeds pageCount too.
    noName := shelf.AddBook(Payload(Some(""), 2000, "", "", "", 100, 150, false), id, now);
    tooFar := shelf.AddBook(Payload(Some("X"), 2000, "", "", "", 100, 150, false), id, now);
    listed := GetAllBooks(shelf.books, Query(None, None, None));
    GetAllBooksUnfiltered(shelf.books);
  }

  /** A case-insensitive name query lists a book whose name contains it. */
  method ListByName(id: string, now: string) returns (listed: Response)
    ensures listed.data == BooksData([BookSummary(id, "Dune Messiah", "Putnam")])
  {
    var shelf := new BookShelf();
    var messiah := Payload(Some("Dune Messiah"), 1969, "Herbert", "...", "Putnam", 256, 10, true);
    var _ := shelf.AddBook(messiah, id, now);
    var q := Query(Some("dune"), Some(1), None);
    var book := NewBook(messiah, id, now);
    assert shelf.books == [] + [book];
    listed := GetAllBooks(shelf.books, q);
    assert Selected(book, q) by {
      NameMatchesExample();
    }
    GetAllBooksAfterAppend([], book, q);
    assert GetAllBooks([], q).data.books == [];
  }

  /** An invalid edit of an unknown id is refused as invalid (400), not as missing (404). */
  method EditUnknownInvalid(id: string, now: string) returns (edited: Response)
    ensures edited == Failure(400, EditReadPageMessage)
  {
    var shelf := new BookShelf();
    edited := shelf.EditBookById(id, Payload(Some("X"), 2000, "", "", "", 1, 2, false), now);
  }
}
