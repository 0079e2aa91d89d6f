/**
 * The book record kept by the bookshelf service, the request payload it is built
 * from, the summary the list handler returns, and the searches by id.
 */
module Books {
  import opened Wrappers

  /** One stored book. `finished` is derived from `pageCount` and `readPage`. */
  datatype Book = Book(
    id: string,
    name: string,
    year: int,
    author: string,
    summary: string,
    publisher: string,
    pageCount: int,
    readPage: int,
    finished: bool,
    reading: bool,
    insertedAt: string,
    updatedAt: string)

  /** The fields a client sends to create or edit a book; `name` may be missing. */
  datatype Payload = Payload(
    name: Option<string>,
    year: int,
    author: string,
    summary: string,
    publisher: string,
    pageCount: int,
    readPage: int,
    reading: bool)

  /** The projection of a book that the list handler returns. */
  datatype BookSummary = BookSummary(id: string, name: string, publisher: string)

  /** JavaScript truthiness of an optional string: absent and "" are both falsy. */
  predicate NonEmpty(s: Option<string>) {
    s.Some? && s.value != ""
  }

  /** The client-supplied fields of a stored book, read back as a payload. */
  function Fields(b: Book): Payload {
    Payload(Some(b.name), b.year, b.author, b.summary, b.publisher, b.pageCount, b.readPage, b.reading)
  }

  /** What every record accepted by the handlers satisfies. */
  predicate WellFormed(b: Book) {
    && b.name != ""
    && b.readPage <= b.pageCount
    && b.finished == (b.pageCount == b.readPage)
  }

  /** Every record of the collection is well-formed. */
  predicate AllWellFormed(books: seq<Book>) {
    forall i :: 0 <= i < |books| ==> WellFormed(books[i])
  }

  /** The record the add handler appends, for a payload that passed validation. */
  function NewBook(p: Payload, id: string, now: string): (b: Book)
    requires NonEmpty(p.name)
    ensures Fields(b) == p
    ensures b.id == id
    ensures b.insertedAt == now && b.updatedAt == now
    ensures b.finished <==> p.pageCount == p.readPage
    ensures p.readPage <= p.pageCount ==> WellFormed(b)
  {
    Book(id, p.name.value, p.year, p.author, p.summary, p.publisher, p.pageCount, p.readPage,
         p.pageCount == p.readPage, p.reading, now, now)
  }

  /** The record the edit handler writes over `b`: the payload's fields, `id` and `insertedAt` kept. */
  function Updated(b: Book, p: Payload, now: string): (r: Book)
    requires NonEmpty(p.name)
    ensures Fields(r) == p
    ensures r.id == b.id && r.insertedAt == b.insertedAt
    ensures r.updatedAt == now
    ensures r.finished <==> p.pageCount == p.readPage
    ensures p.readPage <= p.pageCount ==> WellFormed(r)
  {
    b.(name := p.name.value, year := p.year, author := p.author, summary := p.summary,
       publisher := p.publisher, pageCount := p.pageCount, readPage := p.readPage,
       finished := p.pageCount == p.readPage, reading := p.reading, updatedAt := now)
  }

  /** `Array.prototype.findIndex` by id: the first position holding `id`, if any. */
  function FindIndex(books: seq<Book>, id: string): (r: Option<nat>)
    ensures r.Some? ==> r.value < |books| && books[r.value].id == id
    ensures r.Some? ==> forall j :: 0 <= j < r.value ==> books[j].id != id
    ensures r.None? <==> forall j :: 0 <= j < |books| ==> books[j].id != id
  {
    if books == [] then None
    else if books[0].id == id then Some(0)
    else match FindIndex(books[1..], id)
      case None => None
      case Some(i) => Some(i + 1)
  }

  /** The first-match property determines the index. */
  lemma FindIndexIs(books: seq<Book>, id: string, i: nat)
    requires i < |books| && books[i].id == id
    requires forall j :: 0 <= j < i ==> books[j].id != id
    ensures FindIndex(books, id) == Some(i)
  {
  }

  /** No stored book carries `id`. */
  predicate Fresh(books: seq<Book>, id: string) {
    forall k :: 0 <= k < |books| ==> books[k].id != id
  }

  /** No two stored books share an id. */
  predicate IdsDistinct(books: seq<Book>) {
    forall i, j :: 0 <= i < j < |books| ==> books[i].id != books[j].id
  }

  /** Appending a book whose id is fresh keeps the ids distinct, and the new book is found last. */
  lemma AppendFresh(books: seq<Book>, b: Book)
    requires Fresh(books, b.id)
    ensures IdsDistinct(books) ==> IdsDistinct(books + [b])
    ensures FindIndex(books + [b], b.id) == Some(|books|)
  {
    FindIndexIs(books + [b], b.id, |books|);
  }

  /** Replacing a book by one with the same id keeps the ids distinct and the book's position. */
  lemma ReplaceSameId(books: seq<Book>, i: nat, b: Book)
    requires i < |books| && b.id == books[i].id
    ensures IdsDistinct(books) ==> IdsDistinct(books[i := b])
    ensures FindIndex(books, b.id) == Some(i) ==> FindIndex(books[i := b], b.id) == Some(i)
  {
    if FindIndex(books, b.id) == Some(i) {
      FindIndexIs(books[i := b], b.id, i);
    }
  }

  /** Removing position `i` keeps the ids distinct; with distinct ids, that id is then gone. */
  lemma RemoveAt(books: seq<Book>, i: nat)
    requires i < |books|
    ensures IdsDistinct(books) ==> IdsDistinct(books[..i] + books[i + 1..])
    ensures IdsDistinct(books) ==> FindIndex(books[..i] + books[i + 1..], books[i].id) == None
  {
  }

  /** The list handler's `map` to (id, name, publisher). */
  function Project(books: seq<Book>): (r: seq<BookSummary>)
    ensures |r| == |books|
    ensures forall i :: 0 <= i < |books| ==>
      r[i] == BookSummary(books[i].id, books[i].name, books[i].publisher)
  {
    if books == [] then [] else [BookSummary(books[0].id, books[0].name, books[0].publisher)] + Project(books[1..])
  }

  /** Projection distributes over concatenation. */
  lemma ProjectAppend(a: seq<Book>, b: seq<Book>)
    ensures Project(a + b) == Project(a) + Project(b)
  {
  }
}
