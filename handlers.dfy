/** The HTTP handlers: query-parameter paging, id parsing, the search guard,
    request-to-record mapping, and the translation of service errors into
    status codes. A handler that writes is a method on the shared database; a
    handler that only reads is a function of it. What the validator library
    reports about a create or update body is an input (`violations`); the
    stock body's two tags are checked here (`StockViolations`). */
module Handlers {
  import opened Common
  import opened Text
  import opened Pagination
  import opened Models
  import opened Store
  import opened Services
  import opened Validation

  /** An error reply: status, `message` and optional `details`. */
  datatype HttpError = HttpError(status: int, message: string, details: Option<string>)

  datatype Paging = Paging(page: int, limit: int)

  const DefaultPage: int := 1
  const DefaultLimit: int := 10
  const MaxLimit: int := 100

  /** getPaginationParams: `page` is taken when it is a positive integer,
      `limit` when it is an integer from 1 to 100; otherwise 1 and 10. */
  function GetPaginationParams(pageQuery: string, limitQuery: string): (p: Paging)
    ensures p.page >= 1 && 1 <= p.limit <= MaxLimit
    ensures var n := Atoi(pageQuery); p.page == (if n.Some? && n.value > 0 then n.value else DefaultPage)
    ensures var n := Atoi(limitQuery); p.limit == (if n.Some? && 0 < n.value <= MaxLimit then n.value else DefaultLimit)
  {
    var page :=
      if pageQuery != "" && Atoi(pageQuery).Some? && Atoi(pageQuery).value > 0 then Atoi(pageQuery).value
      else DefaultPage;
    var limit :=
      if limitQuery != "" && Atoi(limitQuery).Some? && 0 < Atoi(limitQuery).value <= MaxLimit then Atoi(limitQuery).value
      else DefaultLimit;
    Paging(page, limit)
  }

  /** Without parameters the first page of ten is served. */
  lemma PagingDefaults()
    ensures GetPaginationParams("", "") == Paging(1, 10)
  {
  }

  /** A client that writes the page and limit it wants in decimal gets
      exactly them, as long as the limit is within 1..100. */
  lemma PagingRoundTrip(page: nat, limit: nat)
    requires 1 <= page <= MaxInt64 && 1 <= limit <= MaxLimit
    ensures GetPaginationParams(DecimalText(page), DecimalText(limit)) == Paging(page, limit)
  {
    AtoiDecimal(page);
    AtoiDecimal(limit);
  }

  /** Each parameter is read on its own: a bad page never changes the limit
      and a bad limit never changes the page. */
  lemma PagingIndependent(page1: string, page2: string, limit1: string, limit2: string)
    ensures GetPaginationParams(page1, limit1).page == GetPaginationParams(page1, limit2).page
    ensures GetPaginationParams(page1, limit1).limit == GetPaginationParams(page2, limit1).limit
  {
  }

  /** A limit above 100 is not clipped to 100 but replaced by the default. */
  lemma LimitAboveCapFallsBack(pageQuery: string, limit: nat)
    requires MaxLimit < limit <= MaxInt64
    ensures GetPaginationParams(pageQuery, DecimalText(limit)).limit == DefaultLimit
  {
    AtoiDecimal(limit);
  }

  /** The `pagination` object of a list reply. */
  datatype Listing<T> = Listing(data: seq<T>, page: int, limit: int, total: nat, totalPages: nat)

  /** `total_pages = (total + limit - 1) / limit`, the number of non-empty
      pages. */
  function ListingOf<T>(data: seq<T>, paging: Paging, total: nat): (l: Listing<T>)
    requires paging.limit >= 1
    ensures l.data == data && l.page == paging.page && l.limit == paging.limit && l.total == total
    ensures (l.totalPages - 1) * paging.limit < total <= l.totalPages * paging.limit
    ensures l.totalPages == 0 <==> total == 0
  {
    Listing(data, paging.page, paging.limit, total, TotalPages(total, paging.limit))
  }

  /** `uuid.Parse` on a path or body field: 400 with the parser's error. */
  function ParseId(text: string, codecs: Codecs, invalidMessage: string): (r: Result<Id, HttpError>)
    ensures codecs.parseUuid(text).Ok? ==> r == Ok(codecs.parseUuid(text).value)
    ensures codecs.parseUuid(text).Err? ==> r == Err(HttpError(400, invalidMessage, Some(codecs.parseUuid(text).error)))
  {
    match codecs.parseUuid(text)
    case Ok(id) => Ok(id)
    case Err(e) => Err(HttpError(400, invalidMessage, Some(e)))
  }

  /** The empty-query guard of the three search endpoints. */
  function SearchGuard(query: string): (r: Option<HttpError>)
    ensures r.Some? <==> query == ""
    ensures r.Some? ==> r.value == HttpError(400, "Search query is required", None)
  {
    if query == "" then Some(HttpError(400, "Search query is required", None)) else None
  }

  /** The reply for a validator failure. */
  function ValidationFailed(violations: seq<FieldError>): HttpError
    requires violations != []
  {
    HttpError(400, "Validation failed", Some(Join(Messages(violations), Separator)))
  }

  /** What the validator reports for the stock request, whose one field is
      tagged `required,min=0`: `required` fails on the zero value, `min=0` on
      a negative one, and a field stops at its first failing rule. */
  function StockViolations(stock: int): (v: seq<FieldError>)
    ensures v == [] <==> stock > 0
  {
    if stock == 0 then [FieldError("Stock", "required", "")]
    else if stock < 0 then [FieldError("Stock", "min", "0")]
    else []
  }

  /** The reply the stock endpoint gives for a stock of 0: it is "required". */
  lemma ZeroStockRefused()
    ensures ValidationFailed(StockViolations(0)) == HttpError(400, "Validation failed", Some("Stock is required"))
  {
    var required := FieldError("Stock", "required", "");
    assert FieldMessage(required) == "Stock is required";
    assert Messages([required])[0] == FieldMessage(required);
  }

  /** The reply for a negative stock: it is below the minimum, and the
      validator's wording speaks of characters. */
  lemma NegativeStockRefused(stock: int)
    requires stock < 0
    ensures ValidationFailed(StockViolations(stock)) ==
      HttpError(400, "Validation failed", Some("Stock must be at least 0 characters long"))
  {
    var below := FieldError("Stock", "min", "0");
    assert StockViolations(stock) == [below];
    BelowMinimumMessage(below);
    MinimumStockText();
    var ms := Messages([below]);
    assert |ms| == 1 && ms[0] == "Stock must be at least 0 characters long";
  }

  lemma MinimumStockText()
    ensures "Stock" + " must be at least " + "0" + " characters long" == "Stock must be at least 0 characters long"
  {
  }

  /** The `min` template, picked by a tag that is not "required". */
  lemma BelowMinimumMessage(e: FieldError)
    requires e.tag == "min"
    ensures FieldMessage(e) == e.field + " must be at least " + e.param + " characters long"
  {
    assert e.tag != "required" by {
      assert e.tag[0] != "required"[0];
    }
  }

  /** A service error becomes 404 when its text is "<entity> not found" and
      500 with the text as details otherwise. */
  function ServiceFailure(e: ServiceError, entity: string, notFound: string, failure: string): (h: HttpError)
    requires IsEntity(entity)
    ensures h.status == 404 <==> e == NotFound(entity)
    ensures h.status == 404 ==> h == HttpError(404, notFound, None)
    ensures h.status != 404 ==> h == HttpError(500, failure, Some(Message(e)))
  {
    NotFoundMessageIff(e, entity);
    if Message(e) == entity + " not found" then HttpError(404, notFound, None)
    else HttpError(500, failure, Some(Message(e)))
  }

  /** A missing author or category named in a book update is not the book's
      own absence, so the reply is 500, not 404. */
  lemma MissingReferenceIsServerError()
    ensures ServiceFailure(NotFound("author"), "book", "Book not found", "Failed to update book").status == 500
    ensures ServiceFailure(NotFound("category"), "book", "Book not found", "Failed to update book").status == 500
  {
  }

  datatype CreateBookRequest = CreateBookRequest(
    title: string, isbn: string, description: string, price: Price, stock: int,
    publishedAt: Option<Timestamp>, authorId: string, categoryId: string)

  /** Absent JSON fields are empty strings or None. */
  datatype UpdateBookRequest = UpdateBookRequest(
    title: string, isbn: string, description: string, price: Option<Price>, stock: Option<int>,
    publishedAt: Option<Timestamp>, authorId: string, categoryId: string)

  datatype UpdateCategoryRequest = UpdateCategoryRequest(name: string, description: string)

  /** The update record UpdateBook hands to the service: title, ISBN,
      description and publication date verbatim; an author or category id
      only when given, and then it must parse (the author is parsed first);
      price and stock only when present. */
  function BookUpdatesFor(req: UpdateBookRequest, codecs: Codecs): (r: Result<Book, HttpError>)
    ensures r.Ok? ==> r.value.title == req.title && r.value.isbn == req.isbn
                      && r.value.description == req.description && r.value.publishedAt == req.publishedAt
    ensures r.Ok? ==> r.value.price == (if req.price.Some? then req.price.value else ZeroPrice)
    ensures r.Ok? ==> r.value.stock == (if req.stock.Some? then req.stock.value else 0)
    ensures r.Ok? ==> r.value.id == Nil && !r.value.deleted
    ensures r.Ok? ==> (req.authorId == "" ==> r.value.authorId == Nil)
                      && (req.authorId != "" ==> codecs.parseUuid(req.authorId) == Ok(r.value.authorId))
    ensures r.Ok? ==> (req.categoryId == "" ==> r.value.categoryId == Nil)
                      && (req.categoryId != "" ==> codecs.parseUuid(req.categoryId) == Ok(r.value.categoryId))
    ensures req.authorId != "" && codecs.parseUuid(req.authorId).Err? ==>
      r == Err(HttpError(400, "Invalid author ID", Some(codecs.parseUuid(req.authorId).error)))
    ensures (req.authorId == "" || codecs.parseUuid(req.authorId).Ok?) && req.categoryId != ""
            && codecs.parseUuid(req.categoryId).Err? ==>
      r == Err(HttpError(400, "Invalid category ID", Some(codecs.parseUuid(req.categoryId).error)))
    ensures r.Ok? <==> (req.authorId == "" || codecs.parseUuid(req.authorId).Ok?)
                       && (req.categoryId == "" || codecs.parseUuid(req.categoryId).Ok?)
  {
    var author := if req.authorId == "" then Ok(Nil) else ParseId(req.authorId, codecs, "Invalid author ID");
    var category := if req.categoryId == "" then Ok(Nil) else ParseId(req.categoryId, codecs, "Invalid category ID");
    if author.Err? then Err(author.error)
    else if category.Err? then Err(category.error)
    else
      Ok(NewBook(req.title, req.isbn, req.description,
                 if req.price.Some? then req.price.value else ZeroPrice,
                 if req.stock.Some? then req.stock.value else 0,
                 req.publishedAt, author.value, category.value))
  }

  /** The construction as the handler performs it: start from the verbatim
      fields and assign the optional ones in place. */
  method BuildBookUpdates(req: UpdateBookRequest, codecs: Codecs) returns (r: Result<Book, HttpError>)
    ensures r == BookUpdatesFor(req, codecs)
  {
    var updates := NewBook(req.title, req.isbn, req.description, ZeroPrice, 0, req.publishedAt, Nil, Nil);
    if req.authorId != "" {
      var authorId := ParseId(req.authorId, codecs, "Invalid author ID");
      if authorId.Err? {
        return Err(authorId.error);
      }
      updates := updates.(authorId := authorId.value);
    }
    if req.categoryId != "" {
      var categoryId := ParseId(req.categoryId, codecs, "Invalid category ID");
      if categoryId.Err? {
        return Err(categoryId.error);
      }
      updates := updates.(categoryId := categoryId.value);
    }
    if req.price.Some? {
      updates := updates.(price := req.price.value);
    }
    if req.stock.Some? {
      updates := updates.(stock := req.stock.value);
    }
    r := Ok(updates);
  }

  /** A stock of 0 sent in an update request reaches the service, but the
      struct update skips zero fields, so the stored stock stays as it was;
      the same holds for a price of 0. Setting stock to zero needs the
      dedicated stock endpoint. */
  lemma ZeroStockUpdateIsIgnored(cur: Book, req: UpdateBookRequest, codecs: Codecs)
    requires req.stock == Some(0) && req.price == Some(ZeroPrice)
    requires BookUpdatesFor(req, codecs).Ok?
    ensures BookUpdatesFor(req, codecs).value.stock == 0
    ensures ApplyBookUpdates(cur, BookUpdatesFor(req, codecs).value).stock == cur.stock
    ensures ApplyBookUpdates(cur, BookUpdatesFor(req, codecs).value).price == cur.price
  {
  }

  class BookHandler {
    const service: BookService

    constructor (service: BookService)
      ensures this.service == service
    {
      this.service := service;
    }

    /** POST /books: validation, then the author id, then the category id;
        any failure answers 400 before the service is called. */
    method CreateBook(req: CreateBookRequest, violations: seq<FieldError>, codecs: Codecs, seed: nat)
      returns (r: Result<Book, HttpError>)
      requires service.db.Valid()
      modifies service.db
      ensures service.db.Valid()
      ensures violations != [] ==>
        r == Err(ValidationFailed(violations)) && service.db.State() == old(service.db.State())
      ensures violations == [] && codecs.parseUuid(req.authorId).Err? ==>
        r == Err(HttpError(400, "Invalid author ID", Some(codecs.parseUuid(req.authorId).error)))
        && service.db.State() == old(service.db.State())
      ensures violations == [] && codecs.parseUuid(req.authorId).Ok? && codecs.parseUuid(req.categoryId).Err? ==>
        r == Err(HttpError(400, "Invalid category ID", Some(codecs.parseUuid(req.categoryId).error)))
        && service.db.State() == old(service.db.State())
      ensures r.Err? && r.error.status != 400 ==>
        r.error.status == 500 && r.error.message == "Failed to create book" && service.db.State() == old(service.db.State())
      // A well-formed request creates the book iff both references are live
      // and the insert succeeds; then exactly that row is added.
      ensures violations == [] && codecs.parseUuid(req.authorId).Ok? && codecs.parseUuid(req.categoryId).Ok? ==>
        var row := NewBook(req.title, req.isbn, req.description, req.price, req.stock, req.publishedAt,
                           codecs.parseUuid(req.authorId).value, codecs.parseUuid(req.categoryId).value).(id := NewUuid(seed));
        (r.Ok? <==> old(service.db.IsLiveAuthor(row.authorId)) && old(service.db.IsLiveCategory(row.categoryId))
                    && old(service.db.BookInsertError(row)).None?)
        && (r.Ok? ==>
              r.value == row
              && service.db.State() == old(service.db.State()).(books := old(service.db.books)[row.id := BookColumns(row)],
                                                                bookOrder := old(service.db.bookOrder) + [row.id]))
    {
      var problems := ValidateStruct(violations);
      if problems.Some? {
        return Err(HttpError(400, "Validation failed", problems));
      }
      var authorId := ParseId(req.authorId, codecs, "Invalid author ID");
      if authorId.Err? {
        return Err(authorId.error);
      }
      var categoryId := ParseId(req.categoryId, codecs, "Invalid category ID");
      if categoryId.Err? {
        return Err(categoryId.error);
      }
      var book := NewBook(req.title, req.isbn, req.description, req.price, req.stock, req.publishedAt,
                          authorId.value, categoryId.value);
      var created := service.CreateBook(book, seed);
      match created
      case Err(e) =>
        r := Err(HttpError(500, "Failed to create book", Some(Message(e))));
      case Ok(b) =>
        r := Ok(b);
    }

    /** GET /books/:id. */
    function GetBook(idText: string, codecs: Codecs): (r: Result<Book, HttpError>)
      reads service.db
      requires service.db.Valid()
      ensures codecs.parseUuid(idText).Err? ==> r.Err? && r.error.status == 400
      ensures r.Ok? ==> codecs.parseUuid(idText).Ok? && service.db.IsLiveBook(r.value.id)
                        && codecs.parseUuid(idText).value == r.value.id
      ensures r.Err? && r.error.status == 404 <==>
        codecs.parseUuid(idText).Ok? && !service.db.IsLiveBook(codecs.parseUuid(idText).value)
      ensures codecs.parseUuid(idText).Ok? ==>
        var id := codecs.parseUuid(idText).value;
        (r.Ok? <==> service.db.IsLiveBook(id)) && (r.Ok? ==> r.value == service.db.WithRelations(service.db.books[id]))
    {
      match ParseId(idText, codecs, "Invalid book ID")
      case Err(e) => Err(e)
      case Ok(id) =>
        match service.GetBookById(id)
        case Err(e) => Err(ServiceFailure(e, "book", "Book not found", "Failed to get book"))
        case Ok(b) => Ok(b)
    }

    /** GET /books. */
    function GetAllBooks(pageQuery: string, limitQuery: string): (r: Listing<Book>)
      reads service.db
      requires service.db.Valid()
      ensures Paging(r.page, r.limit) == GetPaginationParams(pageQuery, limitQuery)
      ensures r.total == |service.db.LiveBooks()|
      ensures service.IsBookPage(r.data, service.db.LiveBooks(), r.page, r.limit)
      ensures r.totalPages == TotalPages(r.total, r.limit)
    {
      var p := GetPaginationParams(pageQuery, limitQuery);
      var result := service.GetAllBooks(p.page, p.limit);
      ListingOf(result.items, p, result.total)
    }

    /** GET /books/search: an empty `q` is refused before the service runs. */
    function SearchBooks(query: string, pageQuery: string, limitQuery: string): (r: Result<Listing<Book>, HttpError>)
      reads service.db
      requires service.db.Valid()
      ensures r.Err? <==> query == ""
      ensures r.Err? ==> r.error == HttpError(400, "Search query is required", None)
      ensures r.Ok? ==> Paging(r.value.page, r.value.limit) == GetPaginationParams(pageQuery, limitQuery)
      ensures r.Ok? ==> r.value.total == |service.SearchResults(query)|
      ensures r.Ok? ==> service.IsBookPage(r.value.data, service.SearchResults(query), r.value.page, r.value.limit)
      ensures r.Ok? ==> r.value.totalPages == TotalPages(r.value.total, r.value.limit)
      ensures r.Ok? ==> forall b :: b in r.value.data ==> BookService.BookMatches(b, query)
    {
      match SearchGuard(query)
      case Some(e) => Err(e)
      case None =>
        var p := GetPaginationParams(pageQuery, limitQuery);
        var result := service.SearchBooks(query, p.page, p.limit);
        Ok(ListingOf(result.items, p, result.total))
    }

    /** PUT /books/:id. */
    method UpdateBook(idText: string, req: UpdateBookRequest, violations: seq<FieldError>, codecs: Codecs)
      returns (r: Option<HttpError>)
      requires service.db.Valid()
      modifies service.db
      ensures service.db.Valid()
      ensures codecs.parseUuid(idText).Err? ==>
        r == Some(HttpError(400, "Invalid book ID", Some(codecs.parseUuid(idText).error)))
        && service.db.State() == old(service.db.State())
      ensures codecs.parseUuid(idText).Ok? && violations != [] ==>
        r == Some(ValidationFailed(violations)) && service.db.State() == old(service.db.State())
      ensures codecs.parseUuid(idText).Ok? && violations == [] && BookUpdatesFor(req, codecs).Err? ==>
        r == Some(BookUpdatesFor(req, codecs).error) && service.db.State() == old(service.db.State())
      // Once the request is well formed, 404 means exactly that no live book has the id.
      ensures codecs.parseUuid(idText).Ok? && violations == [] && BookUpdatesFor(req, codecs).Ok? ==>
        (r.Some? && r.value.status == 404 <==> !old(service.db.IsLiveBook(codecs.parseUuid(idText).value)))
        && (r.None? <==> old(service.UpdateSucceeds(codecs.parseUuid(idText).value, BookUpdatesFor(req, codecs).value)))
        && (r.Some? ==> (r.value.status == 404 || r.value.status == 500) && service.db.State() == old(service.db.State()))
      ensures r.None? ==>
        var id := codecs.parseUuid(idText).value;
        BookUpdatesFor(req, codecs).Ok? && old(service.db.IsLiveBook(id))
        && service.db.State() == old(service.db.State()).(
             books := old(service.db.books)[id := ApplyBookUpdates(old(service.db.books[id]), BookUpdatesFor(req, codecs).value)])
    {
      var id := ParseId(idText, codecs, "Invalid book ID");
      if id.Err? {
        return Some(id.error);
      }
      var problems := ValidateStruct(violations);
      if problems.Some? {
        return Some(HttpError(400, "Validation failed", problems));
      }
      var updates := BuildBookUpdates(req, codecs);
      if updates.Err? {
        return Some(updates.error);
      }
      var failure := service.UpdateBook(id.value, updates.value);
      if failure.Some? {
        return Some(ServiceFailure(failure.value, "book", "Book not found", "Failed to update book"));
      }
      r := None;
    }

    /** DELETE /books/:id. */
    method DeleteBook(idText: string, codecs: Codecs) returns (r: Option<HttpError>)
      requires service.db.Valid()
      modifies service.db
      ensures service.db.Valid()
      ensures codecs.parseUuid(idText).Err? ==>
        r == Some(HttpError(400, "Invalid book ID", Some(codecs.parseUuid(idText).error)))
        && service.db.State() == old(service.db.State())
      ensures codecs.parseUuid(idText).Ok? ==>
        var id := codecs.parseUuid(idText).value;
        (r.None? <==> old(service.db.IsLiveBook(id)))
        && (r.Some? ==> r.value == HttpError(404, "Book not found", None) && service.db.State() == old(service.db.State()))
        && (r.None? ==>
              service.db.State() == old(service.db.State()).(books := old(service.db.books)[id := old(service.db.books[id]).(deleted := true)]))
    {
      var id := ParseId(idText, codecs, "Invalid book ID");
      if id.Err? {
        return Some(id.error);
      }
      var failure := service.DeleteBook(id.value);
      if failure.Some? {
        return Some(ServiceFailure(failure.value, "book", "Book not found", "Failed to delete book"));
      }
      r := None;
    }

    /** PATCH /books/:id/stock. The validator refuses a stock of 0 or below,
        so the service's own negative-stock error never reaches this reply. */
    method UpdateBookStock(idText: string, stock: int, codecs: Codecs)
      returns (r: Option<HttpError>)
      requires service.db.Valid()
      modifies service.db
      ensures service.db.Valid()
      ensures codecs.parseUuid(idText).Err? ==>
        r == Some(HttpError(400, "Invalid book ID", Some(codecs.parseUuid(idText).error)))
        && service.db.State() == old(service.db.State())
      ensures codecs.parseUuid(idText).Ok? && stock <= 0 ==>
        r == Some(ValidationFailed(StockViolations(stock))) && service.db.State() == old(service.db.State())
      ensures codecs.parseUuid(idText).Ok? && stock > 0 ==>
        var id := codecs.parseUuid(idText).value;
        (!old(service.db.IsLiveBook(id)) ==>
           r == Some(HttpError(404, "Book not found", None)) && service.db.State() == old(service.db.State()))
        && (old(service.db.IsLiveBook(id)) ==>
              r.None?
              && service.db.State() == old(service.db.State()).(books := old(service.db.books)[id := old(service.db.books[id]).(stock := stock)]))
    {
      var id := ParseId(idText, codecs, "Invalid book ID");
      if id.Err? {
        return Some(id.error);
      }
      var problems := ValidateStruct(StockViolations(stock));
      if problems.Some? {
        return Some(HttpError(400, "Validation failed", problems));
      }
      var failure := service.UpdateBookStock(id.value, stock);
      if failure.Some? {
        return Some(ServiceFailure(failure.value, "book", "Book not found", "Failed to update book stock"));
      }
      r := None;
    }
  }

  class AuthorHandler {
    const service: AuthorService

    constructor (service: AuthorService)
      ensures this.service == service
    {
      this.service := service;
    }

    /** GET /authors/:id. */
    function GetAuthor(idText: string, codecs: Codecs): (r: Result<Author, HttpError>)
      reads service.db
      requires service.db.Valid()
      ensures codecs.parseUuid(idText).Err? ==> r.Err? && r.error.status == 400
      ensures r.Err? && r.error.status == 404 <==>
        codecs.parseUuid(idText).Ok? && !service.db.IsLiveAuthor(codecs.parseUuid(idText).value)
      ensures codecs.parseUuid(idText).Ok? ==>
        var id := codecs.parseUuid(idText).value;
        (r.Ok? <==> service.db.IsLiveAuthor(id)) && (r.Ok? ==> r.value == service.db.AuthorWithBooks(service.db.authors[id]))
      ensures r.Err? && r.error.status == 404 ==> r.error == HttpError(404, "Author not found", None)
    {
      match ParseId(idText, codecs, "Invalid author ID")
      case Err(e) => Err(e)
      case Ok(id) =>
        match service.GetAuthorById(id)
        case Err(e) => Err(ServiceFailure(e, "author", "Author not found", "Failed to get author"))
        case Ok(a) => Ok(a)
    }

    /** GET /authors/search. */
    function SearchAuthors(query: string, pageQuery: string, limitQuery: string): (r: Result<Listing<Author>, HttpError>)
      reads service.db
      requires service.db.Valid()
      ensures r.Err? <==> query == ""
      ensures r.Err? ==> r.error == HttpError(400, "Search query is required", None)
      ensures r.Ok? ==> Paging(r.value.page, r.value.limit) == GetPaginationParams(pageQuery, limitQuery)
      ensures r.Ok? ==> r.value.total == |service.SearchResults(query)|
      ensures r.Ok? ==> service.IsAuthorPage(r.value.data, service.SearchResults(query), r.value.page, r.value.limit)
      ensures r.Ok? ==> r.value.totalPages == TotalPages(r.value.total, r.value.limit)
    {
      match SearchGuard(query)
      case Some(e) => Err(e)
      case None =>
        var p := GetPaginationParams(pageQuery, limitQuery);
        var result := service.SearchAuthors(query, p.page, p.limit);
        Ok(ListingOf(result.items, p, result.total))
    }
  }

  class CategoryHandler {
    const service: CategoryService

    constructor (service: CategoryService)
      ensures this.service == service
    {
      this.service := service;
    }

    /** GET /categories/:id. */
    function GetCategory(idText: string, codecs: Codecs): (r: Result<Category, HttpError>)
      reads service.db
      requires service.db.Valid()
      ensures codecs.parseUuid(idText).Err? ==>
        r == Err(HttpError(400, "Invalid category ID", Some(codecs.parseUuid(idText).error)))
      ensures r.Err? && r.error.status == 404 <==>
        codecs.parseUuid(idText).Ok? && !service.db.IsLiveCategory(codecs.parseUuid(idText).value)
      ensures codecs.parseUuid(idText).Ok? ==>
        var id := codecs.parseUuid(idText).value;
        (r.Ok? <==> service.db.IsLiveCategory(id))
        && (r.Ok? ==> r.value == service.db.CategoryWithBooks(service.db.categories[id]))
      ensures r.Err? && r.error.status == 404 ==> r.error == HttpError(404, "Category not found", None)
    {
      match ParseId(idText, codecs, "Invalid category ID")
      case Err(e) => Err(e)
      case Ok(id) =>
        match service.GetCategoryById(id)
        case Err(e) => Err(ServiceFailure(e, "category", "Category not found", "Failed to get category"))
        case Ok(c) => Ok(c)
    }

    /** GET /categories/search. */
    function SearchCategories(query: string, pageQuery: string, limitQuery: string): (r: Result<Listing<Category>, HttpError>)
      reads service.db
      requires service.db.Valid()
      ensures r.Err? <==> query == ""
      ensures r.Err? ==> r.error == HttpError(400, "Search query is required", None)
      ensures r.Ok? ==> Paging(r.value.page, r.value.limit) == GetPaginationParams(pageQuery, limitQuery)
      ensures r.Ok? ==> r.value.total == |service.SearchResults(query)|
      ensures r.Ok? ==> service.IsCategoryPage(r.value.data, service.SearchResults(query), r.value.page, r.value.limit)
      ensures r.Ok? ==> r.value.totalPages == TotalPages(r.value.total, r.value.limit)
    {
      match SearchGuard(query)
      case Some(e) => Err(e)
      case None =>
        var p := GetPaginationParams(pageQuery, limitQuery);
        var result := service.SearchCategories(query, p.page, p.limit);
        Ok(ListingOf(result.items, p, result.total))
    }

    /** PUT /categories/:id: name and description are passed through as
        given. */
    method UpdateCategory(idText: string, req: UpdateCategoryRequest, violations: seq<FieldError>, codecs: Codecs)
      returns (r: Option<HttpError>)
      requires service.db.Valid()
      modifies service.db
      ensures service.db.Valid()
      ensures codecs.parseUuid(idText).Err? ==>
        r == Some(HttpError(400, "Invalid category ID", Some(codecs.parseUuid(idText).error)))
        && service.db.State() == old(service.db.State())
      ensures codecs.parseUuid(idText).Ok? && violations != [] ==>
        r == Some(ValidationFailed(violations)) && service.db.State() == old(service.db.State())
      ensures codecs.parseUuid(idText).Ok? && violations == [] ==>
        var id := codecs.parseUuid(idText).value;
        (r.Some? && r.value.status == 404 <==> !old(service.db.IsLiveCategory(id)))
        && (r.None? <==>
              old(service.db.IsLiveCategory(id))
              && !old(service.db.NameTaken(ApplyCategoryUpdates(service.db.categories[id], NewCategory(req.name, req.description)).name, id)))
        && (r.Some? ==> (r.value.status == 404 || r.value.status == 500) && service.db.State() == old(service.db.State()))
        && (r.None? ==>
              service.db.State() == old(service.db.State()).(
                categories := old(service.db.categories)[id := ApplyCategoryUpdates(old(service.db.categories[id]),
                                                                                    NewCategory(req.name, req.description))]))
    {
      var id := ParseId(idText, codecs, "Invalid category ID");
      if id.Err? {
        return Some(id.error);
      }
      var problems := ValidateStruct(violations);
      if problems.Some? {
        return Some(HttpError(400, "Validation failed", problems));
      }
      var updates := NewCategory(req.name, req.description);
      var failure := service.UpdateCategory(id.value, updates);
      if failure.Some? {
        return Some(ServiceFailure(failure.value, "category", "Category not found", "Failed to update category"));
      }
      r := None;
    }

    /** DELETE /categories/:id. */
    method DeleteCategory(idText: string, codecs: Codecs) returns (r: Option<HttpError>)
      requires service.db.Valid()
      modifies service.db
      ensures service.db.Valid()
      ensures codecs.parseUuid(idText).Err? ==>
        r == Some(HttpError(400, "Invalid category ID", Some(codecs.parseUuid(idText).error)))
        && service.db.State() == old(service.db.State())
      ensures codecs.parseUuid(idText).Ok? ==>
        var id := codecs.parseUuid(idText).value;
        (r.None? <==> old(service.db.IsLiveCategory(id)))
        && (r.Some? ==> r.value == HttpError(404, "Category not found", None) && service.db.State() == old(service.db.State()))
        && (r.None? ==>
              service.db.State() == old(service.db.State()).(
                categories := old(service.db.categories)[id := old(service.db.categories[id]).(deleted := true)]))
    {
      var id := ParseId(idText, codecs, "Invalid category ID");
      if id.Err? {
        return Some(id.error);
      }
      var failure := service.DeleteCategory(id.value);
      if failure.Some? {
        return Some(ServiceFailure(failure.value, "category", "Category not found", "Failed to delete category"));
      }
      r := None;
    }
  }
}
