/** The gRPC front end: page and limit normalisation, the conversion of
    records into protocol messages, the mapping of request messages onto
    records, and the status each outcome gets. Every call answers with a
    reply message and a gRPC status; a failed reply carries no payload. */
module Grpc {
  import opened Common
  import opened Pagination
  import opened Models
  import opened Store
  import opened Services

  /** The gRPC status codes the server uses. */
  datatype Code = CodeOK | CodeInvalidArgument | CodeNotFound | CodeInternal

  datatype Status = Status(code: Code, message: string)

  /** A response message (`Success`, `Message`, the payload) with the status
      returned beside it. */
  datatype Reply<T> = Reply(success: bool, message: string, payload: Option<T>, status: Status)

  function Succeeded<T>(message: string, payload: Option<T>): Reply<T> {
    Reply(true, message, payload, Status(CodeOK, ""))
  }

  /** A failure whose response message is the status message. */
  function Refused<T>(s: Status): Reply<T> {
    Reply(false, s.message, None, s)
  }

  const InvalidBookId: Status := Status(CodeInvalidArgument, "Invalid book ID")
  const InvalidAuthorId: Status := Status(CodeInvalidArgument, "Invalid author ID")
  const InvalidCategoryId: Status := Status(CodeInvalidArgument, "Invalid category ID")

  /** A service error becomes NotFound when its text is "<entity> not found"
      and Internal, with the text as status message, otherwise. */
  function ErrorReply<T>(e: ServiceError, entity: string, notFound: string, failure: string): (r: Reply<T>)
    requires IsEntity(entity)
    ensures !r.success && r.payload.None?
    ensures r.status.code == CodeNotFound <==> e == NotFound(entity)
    ensures r.status.code == CodeNotFound ==> r.message == notFound && r.status.message == notFound
    ensures r.status.code != CodeNotFound ==>
      r.status == Status(CodeInternal, Message(e)) && r.message == failure + ": " + Message(e)
  {
    NotFoundMessageIff(e, entity);
    if Message(e) == entity + " not found" then Refused(Status(CodeNotFound, notFound))
    else Reply(false, failure + ": " + Message(e), None, Status(CodeInternal, Message(e)))
  }

  // ---------------------------------------------------------------- paging

  /** A page or limit of zero or less falls back to 1 and 10; a positive
      one is kept as sent, with no upper bound on the limit. */
  function NormalizePaging(page: Int32, limit: Int32): (p: (int, int))
    ensures 1 <= p.0 <= MaxInt32 && 1 <= p.1 <= MaxInt32
    ensures page > 0 ==> p.0 == page
    ensures page <= 0 ==> p.0 == 1
    ensures limit > 0 ==> p.1 == limit
    ensures limit <= 0 ==> p.1 == 10
  {
    (if page <= 0 then 1 else page, if limit <= 0 then 10 else limit)
  }

  /** Unlike the HTTP query parameters, a gRPC client may ask for any
      number of rows per page. */
  lemma NoUpperCapOnLimit(page: Int32, limit: Int32)
    requires limit > 100
    ensures NormalizePaging(page, limit).1 == limit > 100
  {
  }

  datatype ProtoPagination = ProtoPagination(page: Int32, limit: Int32, total: int, totalPages: int)

  function PaginationOf(page: int, limit: int, total: nat): (p: ProtoPagination)
    requires 1 <= page <= MaxInt32 && 1 <= limit <= MaxInt32
    ensures p.page == page && p.limit == limit && p.total == total
    ensures (p.totalPages - 1) * limit < total <= p.totalPages * limit
    ensures p.totalPages == 0 <==> total == 0
  {
    ProtoPagination(page, limit, total, TotalPages(total, limit))
  }

  datatype ProtoList<T> = ProtoList(items: seq<T>, pagination: ProtoPagination)

  // ------------------------------------------------------------ conversion

  datatype ProtoBook = ProtoBook(
    id: string, title: string, isbn: string, description: string, price: Price, stock: Int32,
    createdAt: string, updatedAt: string, authorId: string, categoryId: string,
    publishedAt: string, author: Option<ProtoAuthor>, category: Option<ProtoCategory>)

  datatype ProtoAuthor = ProtoAuthor(
    id: string, name: string, email: string, biography: string,
    createdAt: string, updatedAt: string, books: seq<ProtoBook>)

  datatype ProtoCategory = ProtoCategory(
    id: string, name: string, description: string,
    createdAt: string, updatedAt: string, books: seq<ProtoBook>)

  /** convertBookToProto: the publication date only when the book has one;
      the author and category messages only when a row was loaded (its id
      is not Nil); stock narrowed to 32 bits. */
  function BookProto(b: Book, codecs: Codecs): (p: ProtoBook)
    decreases b
    ensures p.id == codecs.uuidText(b.id) && p.authorId == codecs.uuidText(b.authorId)
            && p.categoryId == codecs.uuidText(b.categoryId)
    ensures p.title == b.title && p.isbn == b.isbn && p.description == b.description && p.price == b.price
    ensures MinInt32 <= b.stock <= MaxInt32 ==> p.stock == b.stock
    ensures b.publishedAt.None? ==> p.publishedAt == ""
    ensures b.publishedAt.Some? ==> p.publishedAt == codecs.formatTime(b.publishedAt.value)
    ensures p.author.Some? <==> b.author.id != Nil
    ensures p.author.Some? ==> p.author.value == AuthorProto(b.author, codecs)
    ensures p.category.Some? <==> b.category.id != Nil
    ensures p.category.Some? ==> p.category.value == CategoryProto(b.category, codecs)
  {
    ProtoBook(
      codecs.uuidText(b.id), b.title, b.isbn, b.description, b.price, WrapInt32(b.stock),
      codecs.formatTime(b.createdAt), codecs.formatTime(b.updatedAt),
      codecs.uuidText(b.authorId), codecs.uuidText(b.categoryId),
      if b.publishedAt.Some? then codecs.formatTime(b.publishedAt.value) else "",
      if b.author.id != Nil then Some(AuthorProto(b.author, codecs)) else None,
      if b.category.id != Nil then Some(CategoryProto(b.category, codecs)) else None)
  }

  /** convertAuthorToProto: one book message per loaded book, in order. */
  function AuthorProto(a: Author, codecs: Codecs): (p: ProtoAuthor)
    decreases a
    ensures p.id == codecs.uuidText(a.id) && p.name == a.name && p.email == a.email && p.biography == a.biography
    ensures |p.books| == |a.books|
    ensures forall i :: 0 <= i < |a.books| ==> p.books[i] == BookProto(a.books[i], codecs)
  {
    ProtoAuthor(codecs.uuidText(a.id), a.name, a.email, a.biography,
                codecs.formatTime(a.createdAt), codecs.formatTime(a.updatedAt),
                seq(|a.books|, i requires 0 <= i < |a.books| => BookProto(a.books[i], codecs)))
  }

  /** convertCategoryToProto: one book message per loaded book, in order. */
  function CategoryProto(c: Category, codecs: Codecs): (p: ProtoCategory)
    decreases c
    ensures p.id == codecs.uuidText(c.id) && p.name == c.name && p.description == c.description
    ensures |p.books| == |c.books|
    ensures forall i :: 0 <= i < |c.books| ==> p.books[i] == BookProto(c.books[i], codecs)
  {
    ProtoCategory(codecs.uuidText(c.id), c.name, c.description,
                  codecs.formatTime(c.createdAt), codecs.formatTime(c.updatedAt),
                  seq(|c.books|, i requires 0 <= i < |c.books| => BookProto(c.books[i], codecs)))
  }

  /** The books of a list reply: one message per record, in order. */
  function BooksProto(bs: seq<Book>, codecs: Codecs): (ps: seq<ProtoBook>)
    ensures |ps| == |bs|
    ensures forall i :: 0 <= i < |bs| ==> ps[i] == BookProto(bs[i], codecs)
  {
    seq(|bs|, i requires 0 <= i < |bs| => BookProto(bs[i], codecs))
  }

  function AuthorsProto(rows: seq<Author>, codecs: Codecs): (ps: seq<ProtoAuthor>)
    ensures |ps| == |rows|
    ensures forall i :: 0 <= i < |rows| ==> ps[i] == AuthorProto(rows[i], codecs)
  {
    seq(|rows|, i requires 0 <= i < |rows| => AuthorProto(rows[i], codecs))
  }

  function CategoriesProto(cs: seq<Category>, codecs: Codecs): (ps: seq<ProtoCategory>)
    ensures |ps| == |cs|
    ensures forall i :: 0 <= i < |cs| ==> ps[i] == CategoryProto(cs[i], codecs)
  {
    seq(|cs|, i requires 0 <= i < |cs| => CategoryProto(cs[i], codecs))
  }

  /** A stock beyond the 32-bit range does not survive the conversion: one
      more than the largest int32 shows up as the most negative value. */
  lemma WideStockWrapsAround(b: Book, codecs: Codecs)
    requires b.stock == MaxInt32 + 1
    ensures BookProto(b, codecs).stock == MinInt32
  {
  }

  /** A book whose relations were not loaded carries neither an author nor a
      category message. */
  lemma UnloadedRelationsAreAbsent(b: Book, codecs: Codecs)
    requires b.author == NoAuthor && b.category == NoCategory
    ensures BookProto(b, codecs).author.None? && BookProto(b, codecs).category.None?
  {
  }

  /** convertBookToProto as written: start from the always-present fields,
      then fill the optional ones in place. */
  method ConvertBookToProto(b: Book, codecs: Codecs) returns (p: ProtoBook)
    decreases b
    ensures p == BookProto(b, codecs)
  {
    p := ProtoBook(
      codecs.uuidText(b.id), b.title, b.isbn, b.description, b.price, WrapInt32(b.stock),
      codecs.formatTime(b.createdAt), codecs.formatTime(b.updatedAt),
      codecs.uuidText(b.authorId), codecs.uuidText(b.categoryId), "", None, None);
    if b.publishedAt.Some? {
      p := p.(publishedAt := codecs.formatTime(b.publishedAt.value));
    }
    if b.author.id != Nil {
      var author := ConvertAuthorToProto(b.author, codecs);
      p := p.(author := Some(author));
    }
    if b.category.id != Nil {
      var category := ConvertCategoryToProto(b.category, codecs);
      p := p.(category := Some(category));
    }
  }

  method ConvertAuthorToProto(a: Author, codecs: Codecs) returns (p: ProtoAuthor)
    decreases a
    ensures p == AuthorProto(a, codecs)
  {
    p := ProtoAuthor(codecs.uuidText(a.id), a.name, a.email, a.biography,
                     codecs.formatTime(a.createdAt), codecs.formatTime(a.updatedAt), []);
    var i := 0;
    while i < |a.books|
      invariant 0 <= i <= |a.books|
      invariant p == AuthorProto(a, codecs).(books := p.books)
      invariant |p.books| == i
      invariant forall j :: 0 <= j < i ==> p.books[j] == BookProto(a.books[j], codecs)
    {
      var book := ConvertBookToProto(a.books[i], codecs);
      p := p.(books := p.books + [book]);
      i := i + 1;
    }
  }

  method ConvertCategoryToProto(c: Category, codecs: Codecs) returns (p: ProtoCategory)
    decreases c
    ensures p == CategoryProto(c, codecs)
  {
    p := ProtoCategory(codecs.uuidText(c.id), c.name, c.description,
                       codecs.formatTime(c.createdAt), codecs.formatTime(c.updatedAt), []);
    var i := 0;
    while i < |c.books|
      invariant 0 <= i <= |c.books|
      invariant p == CategoryProto(c, codecs).(books := p.books)
      invariant |p.books| == i
      invariant forall j :: 0 <= j < i ==> p.books[j] == BookProto(c.books[j], codecs)
    {
      var book := ConvertBookToProto(c.books[i], codecs);
      p := p.(books := p.books + [book]);
      i := i + 1;
    }
  }

  /** The append loop of the book list replies. */
  method ConvertBooks(bs: seq<Book>, codecs: Codecs) returns (ps: seq<ProtoBook>)
    ensures ps == BooksProto(bs, codecs)
  {
    ps := [];
    var i := 0;
    while i < |bs|
      invariant 0 <= i <= |bs|
      invariant |ps| == i
      invariant forall j :: 0 <= j < i ==> ps[j] == BookProto(bs[j], codecs)
    {
      var p := ConvertBookToProto(bs[i], codecs);
      ps := ps + [p];
      i := i + 1;
    }
  }

  /** The append loop of the author list replies. */
  method ConvertAuthors(rows: seq<Author>, codecs: Codecs) returns (ps: seq<ProtoAuthor>)
    ensures ps == AuthorsProto(rows, codecs)
  {
    ps := [];
    var i := 0;
    while i < |rows|
      invariant 0 <= i <= |rows|
      invariant |ps| == i
      invariant forall j :: 0 <= j < i ==> ps[j] == AuthorProto(rows[j], codecs)
    {
      var p := ConvertAuthorToProto(rows[i], codecs);
      ps := ps + [p];
      i := i + 1;
    }
  }

  /** The append loop of the category list replies. */
  method ConvertCategories(cs: seq<Category>, codecs: Codecs) returns (ps: seq<ProtoCategory>)
    ensures ps == CategoriesProto(cs, codecs)
  {
    ps := [];
    var i := 0;
    while i < |cs|
      invariant 0 <= i <= |cs|
      invariant |ps| == i
      invariant forall j :: 0 <= j < i ==> ps[j] == CategoryProto(cs[j], codecs)
    {
      var p := ConvertCategoryToProto(cs[i], codecs);
      ps := ps + [p];
      i := i + 1;
    }
  }

  // -------------------------------------------------------- request mapping

  datatype CreateBookMessage = CreateBookMessage(
    title: string, isbn: string, description: string, price: Price, stock: Int32,
    publishedAt: string, authorId: string, categoryId: string)

  datatype UpdateBookMessage = UpdateBookMessage(
    id: string, title: string, isbn: string, description: string, price: Price, stock: Int32,
    publishedAt: string, authorId: string, categoryId: string)

  datatype AuthorMessage = AuthorMessage(name: string, email: string, biography: string)

  datatype CategoryMessage = CategoryMessage(name: string, description: string)

  /** An empty or unparseable publication date is dropped without an
      error. */
  function PublishedAtOf(text: string, codecs: Codecs): (r: Option<Timestamp>)
    ensures r.Some? ==> text != "" && codecs.parseTime(text) == r
    ensures r.None? <==> text == "" || codecs.parseTime(text).None?
  {
    if text == "" then None else codecs.parseTime(text)
  }

  /** The record CreateBook hands to the service: the author id is parsed
      before the category id; the stock is taken as sent, whatever its
      sign. */
  function BookToCreate(req: CreateBookMessage, codecs: Codecs): (r: Result<Book, Status>)
    ensures codecs.parseUuid(req.authorId).Err? ==> r == Err(InvalidAuthorId)
    ensures codecs.parseUuid(req.authorId).Ok? && codecs.parseUuid(req.categoryId).Err? ==> r == Err(InvalidCategoryId)
    ensures r.Ok? <==> codecs.parseUuid(req.authorId).Ok? && codecs.parseUuid(req.categoryId).Ok?
    ensures r.Ok? ==>
      && r.value.id == Nil && !r.value.deleted
      && r.value.title == req.title && r.value.isbn == req.isbn && r.value.description == req.description
      && r.value.price == req.price && r.value.stock == req.stock
      && r.value.publishedAt == PublishedAtOf(req.publishedAt, codecs)
      && Ok(r.value.authorId) == codecs.parseUuid(req.authorId)
      && Ok(r.value.categoryId) == codecs.parseUuid(req.categoryId)
  {
    match codecs.parseUuid(req.authorId)
    case Err(_) => Err(InvalidAuthorId)
    case Ok(authorId) =>
      match codecs.parseUuid(req.categoryId)
      case Err(_) => Err(InvalidCategoryId)
      case Ok(categoryId) =>
        Ok(NewBook(req.title, req.isbn, req.description, req.price, req.stock,
                   PublishedAtOf(req.publishedAt, codecs), authorId, categoryId))
  }

  /** The record UpdateBook hands to the service: title, ISBN,
      description, price and stock copied whatever they are; an author or
      category id only when the string is non-empty, and then it must parse
      (the author first); the publication date only when it parses. */
  function BookUpdatesFrom(req: UpdateBookMessage, codecs: Codecs): (r: Result<Book, Status>)
    ensures r.Ok? ==>
      && r.value.id == Nil && !r.value.deleted
      && r.value.title == req.title && r.value.isbn == req.isbn && r.value.description == req.description
      && r.value.price == req.price && r.value.stock == req.stock
      && r.value.publishedAt == PublishedAtOf(req.publishedAt, codecs)
    ensures r.Ok? ==> (req.authorId == "" ==> r.value.authorId == Nil)
                      && (req.authorId != "" ==> codecs.parseUuid(req.authorId) == Ok(r.value.authorId))
    ensures r.Ok? ==> (req.categoryId == "" ==> r.value.categoryId == Nil)
                      && (req.categoryId != "" ==> codecs.parseUuid(req.categoryId) == Ok(r.value.categoryId))
    ensures req.authorId != "" && codecs.parseUuid(req.authorId).Err? ==> r == Err(InvalidAuthorId)
    ensures ((req.authorId == "" || codecs.parseUuid(req.authorId).Ok?)
             && req.categoryId != "" && codecs.parseUuid(req.categoryId).Err?) ==> r == Err(InvalidCategoryId)
    ensures r.Ok? <==> (req.authorId == "" || codecs.parseUuid(req.authorId).Ok?)
                       && (req.categoryId == "" || codecs.parseUuid(req.categoryId).Ok?)
  {
    var author := if req.authorId == "" then Ok(Nil) else codecs.parseUuid(req.authorId);
    var category := if req.categoryId == "" then Ok(Nil) else codecs.parseUuid(req.categoryId);
    if author.Err? then Err(InvalidAuthorId)
    else if category.Err? then Err(InvalidCategoryId)
    else
      Ok(NewBook(req.title, req.isbn, req.description, req.price, req.stock,
                 PublishedAtOf(req.publishedAt, codecs), author.value, category.value))
  }

  /** UpdateBook's construction as written: the copied fields first, then
      the optional ones assigned in place. */
  method BuildBookUpdates(req: UpdateBookMessage, codecs: Codecs) returns (r: Result<Book, Status>)
    ensures r == BookUpdatesFrom(req, codecs)
  {
    var updates := NewBook(req.title, req.isbn, req.description, req.price, req.stock, None, Nil, Nil);
    if req.authorId != "" {
      var authorId := codecs.parseUuid(req.authorId);
      if authorId.Err? {
        return Err(InvalidAuthorId);
      }
      updates := updates.(authorId := authorId.value);
    }
    if req.categoryId != "" {
      var categoryId := codecs.parseUuid(req.categoryId);
      if categoryId.Err? {
        return Err(InvalidCategoryId);
      }
      updates := updates.(categoryId := categoryId.value);
    }
    if req.publishedAt != "" {
      var parsed := codecs.parseTime(req.publishedAt);
      if parsed.Some? {
        updates := updates.(publishedAt := parsed);
      }
    }
    r := Ok(updates);
  }

  /** Price and stock are copied unconditionally, yet a zero in either (the
      proto3 value of an omitted field) leaves the stored value unchanged,
      because the struct update skips zero fields; a stock can be zeroed
      only through UpdateBookStock. */
  lemma OmittedPriceAndStockKeepStoredValues(cur: Book, req: UpdateBookMessage, codecs: Codecs)
    requires req.stock == 0 && req.price == ZeroPrice
    requires BookUpdatesFrom(req, codecs).Ok?
    ensures ApplyBookUpdates(cur, BookUpdatesFrom(req, codecs).value).stock == cur.stock
    ensures ApplyBookUpdates(cur, BookUpdatesFrom(req, codecs).value).price == cur.price
  {
  }

  // ----------------------------------------------------------------- server

  /** GRPCServer: the three services over one database. */
  class GrpcServer {
    const books: BookService
    const authors: AuthorService
    const categories: CategoryService

    /** Every service uses the one connection, so an author or category
        created through one RPC is what CreateBook checks against. */
    predicate OneDatabase() {
      authors.db == books.db && categories.db == books.db
    }

    constructor (books: BookService, authors: AuthorService, categories: CategoryService)
      requires authors.db == books.db && categories.db == books.db
      ensures this.books == books && this.authors == authors && this.categories == categories
      ensures OneDatabase()
    {
      this.books := books;
      this.authors := authors;
      this.categories := categories;
    }

    /** CreateBook: argument errors are answered before the store is
        touched; there is no check on the sign of the stock. The author and
        category it checks are the ones the other two services serve. */
    method CreateBook(req: CreateBookMessage, codecs: Codecs, seed: nat) returns (r: Reply<ProtoBook>)
      requires OneDatabase()
      requires books.db.Valid()
      modifies books.db
      ensures books.db.Valid()
      ensures r.success ==> BookToCreate(req, codecs).Ok?
      ensures r.success ==>
        var row := BookToCreate(req, codecs).value.(id := NewUuid(seed));
        old(authors.db.IsLiveAuthor(row.authorId)) && old(categories.db.IsLiveCategory(row.categoryId))
      ensures BookToCreate(req, codecs).Err? ==>
        r == Refused(BookToCreate(req, codecs).error) && books.db.State() == old(books.db.State())
      ensures BookToCreate(req, codecs).Ok? ==>
        var row := BookToCreate(req, codecs).value.(id := NewUuid(seed));
        (r.success <==> old(books.ValidateAuthorAndCategory(row.authorId, row.categoryId)).None?
                        && old(books.db.BookInsertError(row)).None?)
        && (r.success ==>
              r == Succeeded("Book created successfully", Some(BookProto(row, codecs)))
              && row.stock == req.stock
              && books.db.State() == old(books.db.State()).(books := old(books.db.books)[row.id := BookColumns(row)],
                                                            bookOrder := old(books.db.bookOrder) + [row.id]))
        && (!r.success ==> r.status.code == CodeInternal && books.db.State() == old(books.db.State()))
    {
      var book := BookToCreate(req, codecs);
      if book.Err? {
        return Refused(book.error);
      }
      var created := books.CreateBook(book.value, seed);
      match created
      case Err(e) =>
        r := Reply(false, "Failed to create book: " + Message(e), None, Status(CodeInternal, Message(e)));
      case Ok(b) =>
        var p := ConvertBookToProto(b, codecs);
        r := Succeeded("Book created successfully", Some(p));
    }

    method GetBook(idText: string, codecs: Codecs) returns (r: Reply<ProtoBook>)
      requires books.db.Valid()
      ensures codecs.parseUuid(idText).Err? ==> r == Refused(InvalidBookId)
      ensures codecs.parseUuid(idText).Ok? ==>
        var id := codecs.parseUuid(idText).value;
        (r.success <==> books.db.IsLiveBook(id))
        && (r.success ==> r.payload == Some(BookProto(books.db.WithRelations(books.db.books[id]), codecs)))
        && (!r.success ==> r == Refused(Status(CodeNotFound, "Book not found")))
    {
      var id := codecs.parseUuid(idText);
      if id.Err? {
        return Refused(InvalidBookId);
      }
      var found := books.GetBookById(id.value);
      match found
      case Err(e) =>
        r := ErrorReply(e, "book", "Book not found", "Failed to get book");
      case Ok(b) =>
        var p := ConvertBookToProto(b, codecs);
        r := Succeeded("Book retrieved successfully", Some(p));
    }

    method GetAllBooks(page: Int32, limit: Int32, codecs: Codecs) returns (r: Reply<ProtoList<ProtoBook>>)
      requires books.db.Valid()
      ensures var (p, l) := NormalizePaging(page, limit);
        var result := books.GetAllBooks(p, l);
        r == Succeeded("Books retrieved successfully",
                       Some(ProtoList(BooksProto(result.items, codecs), PaginationOf(p, l, result.total))))
    {
      var (p, l) := NormalizePaging(page, limit);
      var result := books.GetAllBooks(p, l);
      var items := ConvertBooks(result.items, codecs);
      r := Succeeded("Books retrieved successfully", Some(ProtoList(items, PaginationOf(p, l, result.total))));
    }

    /** SearchBooks: unlike the HTTP endpoint, an empty query is accepted and
        matches every live book. */
    method SearchBooks(query: string, page: Int32, limit: Int32, codecs: Codecs) returns (r: Reply<ProtoList<ProtoBook>>)
      requires books.db.Valid()
      ensures var (p, l) := NormalizePaging(page, limit);
        var result := books.SearchBooks(query, p, l);
        r == Succeeded("Books found successfully",
                       Some(ProtoList(BooksProto(result.items, codecs), PaginationOf(p, l, result.total))))
      ensures query == "" ==> r.payload.value.pagination.total == |books.db.LiveBooks()|
    {
      var (p, l) := NormalizePaging(page, limit);
      var result := books.SearchBooks(query, p, l);
      var items := ConvertBooks(result.items, codecs);
      r := Succeeded("Books found successfully", Some(ProtoList(items, PaginationOf(p, l, result.total))));
      if query == "" {
        books.SearchEmptyIsGetAll(p, l);
      }
    }

    method GetBooksByAuthor(authorIdText: string, page: Int32, limit: Int32, codecs: Codecs)
      returns (r: Reply<ProtoList<ProtoBook>>)
      requires books.db.Valid()
      ensures codecs.parseUuid(authorIdText).Err? ==> r == Refused(InvalidAuthorId)
      ensures codecs.parseUuid(authorIdText).Ok? ==>
        var (p, l) := NormalizePaging(page, limit);
        var result := books.GetBooksByAuthor(codecs.parseUuid(authorIdText).value, p, l);
        r == Succeeded("Books retrieved successfully",
                       Some(ProtoList(BooksProto(result.items, codecs), PaginationOf(p, l, result.total))))
    {
      var authorId := codecs.parseUuid(authorIdText);
      if authorId.Err? {
        return Refused(InvalidAuthorId);
      }
      var (p, l) := NormalizePaging(page, limit);
      var result := books.GetBooksByAuthor(authorId.value, p, l);
      var items := ConvertBooks(result.items, codecs);
      r := Succeeded("Books retrieved successfully", Some(ProtoList(items, PaginationOf(p, l, result.total))));
    }

    method GetBooksByCategory(categoryIdText: string, page: Int32, limit: Int32, codecs: Codecs)
      returns (r: Reply<ProtoList<ProtoBook>>)
      requires books.db.Valid()
      ensures codecs.parseUuid(categoryIdText).Err? ==> r == Refused(InvalidCategoryId)
      ensures codecs.parseUuid(categoryIdText).Ok? ==>
        var (p, l) := NormalizePaging(page, limit);
        var result := books.GetBooksByCategory(codecs.parseUuid(categoryIdText).value, p, l);
        r == Succeeded("Books retrieved successfully",
                       Some(ProtoList(BooksProto(result.items, codecs), PaginationOf(p, l, result.total))))
    {
      var categoryId := codecs.parseUuid(categoryIdText);
      if categoryId.Err? {
        return Refused(InvalidCategoryId);
      }
      var (p, l) := NormalizePaging(page, limit);
      var result := books.GetBooksByCategory(categoryId.value, p, l);
      var items := ConvertBooks(result.items, codecs);
      r := Succeeded("Books retrieved successfully", Some(ProtoList(items, PaginationOf(p, l, result.total))));
    }

    /** UpdateBook: NotFound exactly when no live book has the id; a missing
        author or category is Internal. An update that names an author or a
        category leaves the book referring to rows the other two services
        serve as live. */
    method UpdateBook(req: UpdateBookMessage, codecs: Codecs) returns (r: Reply<()>)
      requires OneDatabase()
      requires books.db.Valid()
      modifies books.db
      ensures books.db.Valid()
      ensures r.success ==> codecs.parseUuid(req.id).Ok? && BookUpdatesFrom(req, codecs).Ok?
      ensures r.success ==>
        var id := codecs.parseUuid(req.id).value;
        var upd := BookUpdatesFrom(req, codecs).value;
        id in books.db.books
        && (upd.authorId != Nil || upd.categoryId != Nil ==>
              authors.db.IsLiveAuthor(books.db.books[id].authorId)
              && categories.db.IsLiveCategory(books.db.books[id].categoryId))
      ensures codecs.parseUuid(req.id).Err? ==>
        r == Refused(InvalidBookId) && books.db.State() == old(books.db.State())
      ensures codecs.parseUuid(req.id).Ok? && BookUpdatesFrom(req, codecs).Err? ==>
        r == Refused(BookUpdatesFrom(req, codecs).error) && books.db.State() == old(books.db.State())
      ensures codecs.parseUuid(req.id).Ok? && BookUpdatesFrom(req, codecs).Ok? ==>
        var id := codecs.parseUuid(req.id).value;
        (r.status.code == CodeNotFound <==> !old(books.db.IsLiveBook(id)))
        && (r.success <==> old(books.UpdateSucceeds(id, BookUpdatesFrom(req, codecs).value)))
        && (!r.success && r.status.code != CodeNotFound ==> r.status.code == CodeInternal)
        && (r.success ==>
              r == Succeeded("Book updated successfully", None)
              && old(books.db.IsLiveBook(id))
              && books.db.State() == old(books.db.State()).(
                   books := old(books.db.books)[id := ApplyBookUpdates(old(books.db.books[id]), BookUpdatesFrom(req, codecs).value)]))
        && (!r.success ==> books.db.State() == old(books.db.State()))
    {
      var id := codecs.parseUuid(req.id);
      if id.Err? {
        return Refused(InvalidBookId);
      }
      var updates := BuildBookUpdates(req, codecs);
      if updates.Err? {
        return Refused(updates.error);
      }
      var failure := books.UpdateBook(id.value, updates.value);
      if failure.Some? {
        return ErrorReply(failure.value, "book", "Book not found", "Failed to update book");
      }
      r := Succeeded("Book updated successfully", None);
    }

    method DeleteBook(idText: string, codecs: Codecs) returns (r: Reply<()>)
      requires books.db.Valid()
      modifies books.db
      ensures books.db.Valid()
      ensures codecs.parseUuid(idText).Err? ==>
        r == Refused(InvalidBookId) && books.db.State() == old(books.db.State())
      ensures codecs.parseUuid(idText).Ok? ==>
        var id := codecs.parseUuid(idText).value;
        (r.success <==> old(books.db.IsLiveBook(id)))
        && (!r.success ==> r == Refused(Status(CodeNotFound, "Book not found")) && books.db.State() == old(books.db.State()))
        && (r.success ==>
              books.db.State() == old(books.db.State()).(books := old(books.db.books)[id := old(books.db.books[id]).(deleted := true)]))
    {
      var id := codecs.parseUuid(idText);
      if id.Err? {
        return Refused(InvalidBookId);
      }
      var failure := books.DeleteBook(id.value);
      if failure.Some? {
        return ErrorReply(failure.value, "book", "Book not found", "Failed to delete book");
      }
      r := Succeeded("Book deleted successfully", None);
    }

    /** UpdateBookStock: the one gRPC path that refuses a negative stock. */
    method UpdateBookStock(idText: string, stock: Int32, codecs: Codecs) returns (r: Reply<()>)
      requires books.db.Valid()
      modifies books.db
      ensures books.db.Valid()
      ensures codecs.parseUuid(idText).Err? ==>
        r == Refused(InvalidBookId) && books.db.State() == old(books.db.State())
      ensures codecs.parseUuid(idText).Ok? ==>
        var id := codecs.parseUuid(idText).value;
        (stock < 0 ==>
           !r.success && r.status == Status(CodeInternal, "stock cannot be negative")
           && books.db.State() == old(books.db.State()))
        && (stock >= 0 && !old(books.db.IsLiveBook(id)) ==>
              r == Refused(Status(CodeNotFound, "Book not found")) && books.db.State() == old(books.db.State()))
        && (stock >= 0 && old(books.db.IsLiveBook(id)) ==>
              r == Succeeded("Book stock updated successfully", None)
              && books.db.State() == old(books.db.State()).(books := old(books.db.books)[id := old(books.db.books[id]).(stock := stock)]))
    {
      var id := codecs.parseUuid(idText);
      if id.Err? {
        return Refused(InvalidBookId);
      }
      var failure := books.UpdateBookStock(id.value, stock);
      if failure.Some? {
        return ErrorReply(failure.value, "book", "Book not found", "Failed to update book stock");
      }
      r := Succeeded("Book stock updated successfully", None);
    }

    /** CreateAuthor: name, email and biography copied as sent. */
    method CreateAuthor(req: AuthorMessage, codecs: Codecs, seed: nat) returns (r: Reply<ProtoAuthor>)
      requires authors.db.Valid()
      modifies authors.db
      ensures authors.db.Valid()
      ensures var row := NewAuthor(req.name, req.email, req.biography).(id := NewUuid(seed));
        (r.success <==> old(authors.db.AuthorInsertError(row)).None?)
        && (r.success ==>
              r == Succeeded("Author created successfully", Some(AuthorProto(row, codecs)))
              && authors.db.State() == old(authors.db.State()).(authors := old(authors.db.authors)[row.id := AuthorColumns(row)],
                                                                authorOrder := old(authors.db.authorOrder) + [row.id]))
        && (!r.success ==> r.status.code == CodeInternal && authors.db.State() == old(authors.db.State()))
    {
      var author := NewAuthor(req.name, req.email, req.biography);
      var created := authors.CreateAuthor(author, seed);
      match created
      case Err(e) =>
        r := Reply(false, "Failed to create author: " + Message(e), None, Status(CodeInternal, Message(e)));
      case Ok(a) =>
        var p := ConvertAuthorToProto(a, codecs);
        r := Succeeded("Author created successfully", Some(p));
    }

    method GetAuthor(idText: string, codecs: Codecs) returns (r: Reply<ProtoAuthor>)
      requires authors.db.Valid()
      ensures codecs.parseUuid(idText).Err? ==> r == Refused(InvalidAuthorId)
      ensures codecs.parseUuid(idText).Ok? ==>
        var id := codecs.parseUuid(idText).value;
        (r.success <==> authors.db.IsLiveAuthor(id))
        && (r.success ==> r.payload == Some(AuthorProto(authors.db.AuthorWithBooks(authors.db.authors[id]), codecs)))
        && (!r.success ==> r == Refused(Status(CodeNotFound, "Author not found")))
    {
      var id := codecs.parseUuid(idText);
      if id.Err? {
        return Refused(InvalidAuthorId);
      }
      var found := authors.GetAuthorById(id.value);
      match found
      case Err(e) =>
        r := ErrorReply(e, "author", "Author not found", "Failed to get author");
      case Ok(a) =>
        var p := ConvertAuthorToProto(a, codecs);
        r := Succeeded("Author retrieved successfully", Some(p));
    }

    method GetAllAuthors(page: Int32, limit: Int32, codecs: Codecs) returns (r: Reply<ProtoList<ProtoAuthor>>)
      requires authors.db.Valid()
      ensures var (p, l) := NormalizePaging(page, limit);
        var result := authors.GetAllAuthors(p, l);
        r == Succeeded("Authors retrieved successfully",
                       Some(ProtoList(AuthorsProto(result.items, codecs), PaginationOf(p, l, result.total))))
    {
      var (p, l) := NormalizePaging(page, limit);
      var result := authors.GetAllAuthors(p, l);
      var items := ConvertAuthors(result.items, codecs);
      r := Succeeded("Authors retrieved successfully", Some(ProtoList(items, PaginationOf(p, l, result.total))));
    }

    method SearchAuthors(query: string, page: Int32, limit: Int32, codecs: Codecs) returns (r: Reply<ProtoList<ProtoAuthor>>)
      requires authors.db.Valid()
      ensures var (p, l) := NormalizePaging(page, limit);
        var result := authors.SearchAuthors(query, p, l);
        r == Succeeded("Authors found successfully",
                       Some(ProtoList(AuthorsProto(result.items, codecs), PaginationOf(p, l, result.total))))
    {
      var (p, l) := NormalizePaging(page, limit);
      var result := authors.SearchAuthors(query, p, l);
      var items := ConvertAuthors(result.items, codecs);
      r := Succeeded("Authors found successfully", Some(ProtoList(items, PaginationOf(p, l, result.total))));
    }

    /** UpdateAuthor: name, email and biography copied as sent. */
    method UpdateAuthor(idText: string, req: AuthorMessage, codecs: Codecs) returns (r: Reply<()>)
      requires authors.db.Valid()
      modifies authors.db
      ensures authors.db.Valid()
      ensures codecs.parseUuid(idText).Err? ==>
        r == Refused(InvalidAuthorId) && authors.db.State() == old(authors.db.State())
      ensures codecs.parseUuid(idText).Ok? ==>
        var id := codecs.parseUuid(idText).value;
        (r.status.code == CodeNotFound <==> !old(authors.db.IsLiveAuthor(id)))
        && (r.success <==> old(authors.UpdateSucceeds(id, NewAuthor(req.name, req.email, req.biography))))
        && (!r.success && r.status.code != CodeNotFound ==> r.status.code == CodeInternal)
        && (r.success ==>
              old(authors.db.IsLiveAuthor(id))
              && authors.db.State() == old(authors.db.State()).(
                   authors := old(authors.db.authors)[id := ApplyAuthorUpdates(old(authors.db.authors[id]),
                                                                               NewAuthor(req.name, req.email, req.biography))]))
        && (!r.success ==> authors.db.State() == old(authors.db.State()))
    {
      var id := codecs.parseUuid(idText);
      if id.Err? {
        return Refused(InvalidAuthorId);
      }
      var updates := NewAuthor(req.name, req.email, req.biography);
      var failure := authors.UpdateAuthor(id.value, updates);
      if failure.Some? {
        return ErrorReply(failure.value, "author", "Author not found", "Failed to update author");
      }
      r := Succeeded("Author updated successfully", None);
    }

    method DeleteAuthor(idText: string, codecs: Codecs) returns (r: Reply<()>)
      requires authors.db.Valid()
      modifies authors.db
      ensures authors.db.Valid()
      ensures codecs.parseUuid(idText).Err? ==>
        r == Refused(InvalidAuthorId) && authors.db.State() == old(authors.db.State())
      ensures codecs.parseUuid(idText).Ok? ==>
        var id := codecs.parseUuid(idText).value;
        (r.success <==> old(authors.db.IsLiveAuthor(id)))
        && (!r.success ==> r == Refused(Status(CodeNotFound, "Author not found")) && authors.db.State() == old(authors.db.State()))
        && (r.success ==>
              authors.db.State() == old(authors.db.State()).(
                authors := old(authors.db.authors)[id := old(authors.db.authors[id]).(deleted := true)]))
    {
      var id := codecs.parseUuid(idText);
      if id.Err? {
        return Refused(InvalidAuthorId);
      }
      var failure := authors.DeleteAuthor(id.value);
      if failure.Some? {
        return ErrorReply(failure.value, "author", "Author not found", "Failed to delete author");
      }
      r := Succeeded("Author deleted successfully", None);
    }

    /** CreateCategory: name and description copied as sent. */
    method CreateCategory(req: CategoryMessage, codecs: Codecs, seed: nat) returns (r: Reply<ProtoCategory>)
      requires categories.db.Valid()
      modifies categories.db
      ensures categories.db.Valid()
      ensures var row := NewCategory(req.name, req.description).(id := NewUuid(seed));
        (r.success <==> old(categories.db.CategoryInsertError(row)).None?)
        && (r.success ==>
              r == Succeeded("Category created successfully", Some(CategoryProto(row, codecs)))
              && categories.db.State() == old(categories.db.State()).(
                   categories := old(categories.db.categories)[row.id := CategoryColumns(row)],
                   categoryOrder := old(categories.db.categoryOrder) + [row.id]))
        && (!r.success ==> r.status.code == CodeInternal && categories.db.State() == old(categories.db.State()))
    {
      var category := NewCategory(req.name, req.description);
      var created := categories.CreateCategory(category, seed);
      match created
      case Err(e) =>
        r := Reply(false, "Failed to create category: " + Message(e), None, Status(CodeInternal, Message(e)));
      case Ok(c) =>
        var p := ConvertCategoryToProto(c, codecs);
        r := Succeeded("Category created successfully", Some(p));
    }

    method GetCategory(idText: string, codecs: Codecs) returns (r: Reply<ProtoCategory>)
      requires categories.db.Valid()
      ensures codecs.parseUuid(idText).Err? ==> r == Refused(InvalidCategoryId)
      ensures codecs.parseUuid(idText).Ok? ==>
        var id := codecs.parseUuid(idText).value;
        (r.success <==> categories.db.IsLiveCategory(id))
        && (r.success ==> r.payload == Some(CategoryProto(categories.db.CategoryWithBooks(categories.db.categories[id]), codecs)))
        && (!r.success ==> r == Refused(Status(CodeNotFound, "Category not found")))
    {
      var id := codecs.parseUuid(idText);
      if id.Err? {
        return Refused(InvalidCategoryId);
      }
      var found := categories.GetCategoryById(id.value);
      match found
      case Err(e) =>
        r := ErrorReply(e, "category", "Category not found", "Failed to get category");
      case Ok(c) =>
        var p := ConvertCategoryToProto(c, codecs);
        r := Succeeded("Category retrieved successfully", Some(p));
    }

    method GetAllCategories(page: Int32, limit: Int32, codecs: Codecs) returns (r: Reply<ProtoList<ProtoCategory>>)
      requires categories.db.Valid()
      ensures var (p, l) := NormalizePaging(page, limit);
        var result := categories.GetAllCategories(p, l);
        r == Succeeded("Categories retrieved successfully",
                       Some(ProtoList(CategoriesProto(result.items, codecs), PaginationOf(p, l, result.total))))
    {
      var (p, l) := NormalizePaging(page, limit);
      var result := categories.GetAllCategories(p, l);
      var items := ConvertCategories(result.items, codecs);
      r := Succeeded("Categories retrieved successfully", Some(ProtoList(items, PaginationOf(p, l, result.total))));
    }

    method SearchCategories(query: string, page: Int32, limit: Int32, codecs: Codecs)
      returns (r: Reply<ProtoList<ProtoCategory>>)
      requires categories.db.Valid()
      ensures var (p, l) := NormalizePaging(page, limit);
        var result := categories.SearchCategories(query, p, l);
        r == Succeeded("Categories found successfully",
                       Some(ProtoList(CategoriesProto(result.items, codecs), PaginationOf(p, l, result.total))))
    {
      var (p, l) := NormalizePaging(page, limit);
      var result := categories.SearchCategories(query, p, l);
      var items := ConvertCategories(result.items, codecs);
      r := Succeeded("Categories found successfully", Some(ProtoList(items, PaginationOf(p, l, result.total))));
    }

    /** UpdateCategory: name and description copied as sent. */
    method UpdateCategory(idText: string, req: CategoryMessage, codecs: Codecs) returns (r: Reply<()>)
      requires categories.db.Valid()
      modifies categories.db
      ensures categories.db.Valid()
      ensures codecs.parseUuid(idText).Err? ==>
        r == Refused(InvalidCategoryId) && categories.db.State() == old(categories.db.State())
      ensures codecs.parseUuid(idText).Ok? ==>
        var id := codecs.parseUuid(idText).value;
        (r.status.code == CodeNotFound <==> !old(categories.db.IsLiveCategory(id)))
        && (r.success <==> old(categories.UpdateSucceeds(id, NewCategory(req.name, req.description))))
        && (!r.success && r.status.code != CodeNotFound ==> r.status.code == CodeInternal)
        && (r.success ==>
              old(categories.db.IsLiveCategory(id))
              && categories.db.State() == old(categories.db.State()).(
                   categories := old(categories.db.categories)[id := ApplyCategoryUpdates(old(categories.db.categories[id]),
                                                                                          NewCategory(req.name, req.description))]))
        && (!r.success ==> categories.db.State() == old(categories.db.State()))
    {
      var id := codecs.parseUuid(idText);
      if id.Err? {
        return Refused(InvalidCategoryId);
      }
      var updates := NewCategory(req.name, req.description);
      var failure := categories.UpdateCategory(id.value, updates);
      if failure.Some? {
        return ErrorReply(failure.value, "category", "Category not found", "Failed to update category");
      }
      r := Succeeded("Category updated successfully", None);
    }

    method DeleteCategory(idText: string, codecs: Codecs) returns (r: Reply<()>)
      requires categories.db.Valid()
      modifies categories.db
      ensures categories.db.Valid()
      ensures codecs.parseUuid(idText).Err? ==>
        r == Refused(InvalidCategoryId) && categories.db.State() == old(categories.db.State())
      ensures codecs.parseUuid(idText).Ok? ==>
        var id := codecs.parseUuid(idText).value;
        (r.success <==> old(categories.db.IsLiveCategory(id)))
        && (!r.success ==> r == Refused(Status(CodeNotFound, "Category not found"))
                           && categories.db.State() == old(categories.db.State()))
        && (r.success ==>
              categories.db.State() == old(categories.db.State()).(
                categories := old(categories.db.categories)[id := old(categories.db.categories[id]).(deleted := true)]))
    {
      var id := codecs.parseUuid(idText);
      if id.Err? {
        return Refused(InvalidCategoryId);
      }
      var failure := categories.DeleteCategory(id.value);
      if failure.Some? {
        return ErrorReply(failure.value, "category", "Category not found", "Failed to delete category");
      }
      r := Succeeded("Category deleted successfully", None);
    }
  }
}
