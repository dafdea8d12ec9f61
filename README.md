# Bookstore catalogue service — a Dafny model

The service keeps a catalogue of authors, categories and books in
PostgreSQL through gorm. It serves the catalogue over HTTP (Fiber) and over
gRPC. This project models the core of that service and proves properties of
the model:

- **Records and id hooks** (`models.dfy`): the three records and their
  `BeforeCreate` id hooks.
- **The store** (`store.dfy`): the tables behind gorm, as a `Database` class.
  - It holds one map per table and the insertion order of each table.
  - Soft delete is a flag on the row.
  - Primary keys, the unique indexes (book ISBN, author email, category
    name) and the two foreign keys of `books` see every row. Queries see
    only live rows.
- **The services** (`services.dfy`): `BookService`, `AuthorService` and
  `CategoryService` share one database.
  - Writes are methods whose postconditions give the whole new state.
  - Reads are functions of the tables.
- **The HTTP handlers** (`handlers.dfy`): query-parameter paging, id
  parsing, the empty-search guard, the partial update of UpdateBook, and the
  mapping of service errors to 404 or 500.
- **The gRPC server** (`grpc.dfy`): page normalisation, the
  `convertXToProto` conversions with their append loops, request-to-record
  mapping, and the mapping of errors to status codes.
- **Smaller pieces:**
  - the bearer-token middleware (`middleware.dfy`);
  - the validator message renderer (`validation.dfy`);
  - the levelled logger (`logging.dfy`);
  - the pagination arithmetic (`pagination.dfy`);
  - string helpers: prefix, ASCII case folding, join/split, decimal parse
    (`text.dfy`);
  - shared types, Go's `int32` conversion, and the library codecs
    (`common.dfy`).

Some library behaviour is passed in rather than re-implemented. The bundle
`Codecs` carries `uuid.Parse`, `uuid.UUID.String`, and `time.Parse` and
`time.Time.Format` with the RFC 3339 layout. `uuid.New` is `NewUuid(seed)`,
where the seed stands for the generator's randomness.

One gorm behaviour is an explicit assumption of the model, because the
repository's own code does not show it: `Updates` with a struct writes
only the fields that are not zero-valued (`Store.ApplyBookUpdates` and its
siblings).

Observations the proofs make precise:

- **HTTP UpdateBook:** an unknown author or category id gives 500, not 404
  (`Handlers.MissingReferenceIsServerError`).
- **Zero values in updates:** a price or stock of 0 in an update request,
  over HTTP or gRPC, leaves the stored value unchanged
  (`Handlers.ZeroStockUpdateIsIgnored`,
  `Grpc.OmittedPriceAndStockKeepStoredValues`). Only gRPC UpdateBookStock
  can set a stock of 0.
- **HTTP UpdateBookStock:** the request's `required,min=0` tags refuse a
  stock of 0 ("Stock is required") and a negative stock with 400, so the
  service's own negative-stock check is never reached over HTTP
  (`Handlers.ZeroStockRefused`, `Handlers.NegativeStockRefused`).
- **Token length:** the middleware compares `len(token)`, a count of UTF-8
  bytes, so six two-byte characters pass the ten-byte minimum
  (`Middleware.TokenLengthCountsBytes`).
- **Negative stock:** gRPC CreateBook and UpdateBook store a negative stock
  unchecked. Only UpdateBookStock refuses one (`Grpc.GrpcServer.CreateBook`).
- **gRPC SearchBooks:** it has no empty-query guard, so an empty query lists
  every live book (`Grpc.GrpcServer.SearchBooks`).
- **Page limits:** the HTTP limit is capped at 100, and a larger value falls
  back to 10 rather than 100. The gRPC limit has no cap.
- **Stock in proto messages:** the stock is narrowed to 32 bits, so a stock
  of 2^31 shows up as -2^31 (`Grpc.WideStockWrapsAround`).

## Model

| member | source | states |
|---|---|---|
| Models.Book.BeforeCreate | internal/models/book.go:38-43 | never fails; the id is afterwards non-Nil, kept when it was already set, fresh otherwise; no other field changes |
| Models.Author.BeforeCreate | internal/models/author.go:30-35 | the same for authors |
| Models.Category.BeforeCreate | internal/models/category.go:29-34 | the same for categories |
| Models.TableNamesDistinct | internal/models/book.go:33-35 | the table names are "authors", "categories" and "books" |
| Store.ApplyBookUpdates | internal/services/book_service.go:98 | a struct update never touches id, soft-delete flag, relations or timestamps (zero fields are skipped: an assumption about gorm) |
| Store.ZeroBookUpdateKeepsRow | internal/services/book_service.go:98 | an update record whose fields are all zero leaves the row exactly as it was |
| Store.Filter | internal/services/book_service.go:56-63 | a WHERE clause: every row that satisfies the condition, as often as it occurs, in order, and no other |
| Store.FilterKeepsKeysDistinct | internal/services/book_service.go:56-63 | filtering rows whose primary keys are distinct keeps them distinct |
| Store.ApplyAuthorUpdates | internal/services/author_service.go:67 | an author update never touches id, soft-delete flag, loaded books or timestamps |
| Store.ApplyCategoryUpdates | internal/services/category_service.go:67 | a category update never touches id, soft-delete flag, loaded books or timestamps |
| Store.BookRowReplaced | internal/models/book.go:14-25 | replacing a stored book by a row with the same id, an ISBN no other row has and existing author and category keeps the primary key, the ISBN index and both foreign keys intact |
| Store.Database.constructor | internal/models/book.go:11-30 | an empty database satisfies every table constraint |
| Store.Database.LiveBooks | internal/models/book.go:21 | exactly the stored books whose soft-delete flag is clear, each as often as it is stored, with distinct ids |
| Store.Database.LiveAuthors | internal/models/author.go:18 | exactly the stored authors whose soft-delete flag is clear, with distinct ids |
| Store.Database.LiveCategories | internal/models/category.go:17 | exactly the stored categories whose soft-delete flag is clear, with distinct ids |
| Store.Database.FindBook | internal/services/book_service.go:76 | `First` by id finds a row iff a live row has that id |
| Store.Database.WithRelations | internal/services/book_service.go:40 | Preload("Author").Preload("Category") fills each relation with the live row it refers to, or the zero record when that row is soft-deleted |
| Store.Database.AuthorWithBooks | internal/services/author_service.go:35 | Preload("Books") loads exactly the author's live books |
| Store.Database.CategoryWithBooks | internal/services/category_service.go:35 | Preload("Books") loads exactly the category's live books |
| Store.Database.BooksOfAuthor | internal/services/book_service.go:126 | exactly the live books whose author_id is the given id, with distinct ids |
| Store.Database.BooksOfCategory | internal/services/book_service.go:147 | exactly the live books whose category_id is the given id, with distinct ids |
| Store.Database.BookInsertError | internal/models/book.go:12-29 | an insert succeeds iff the id is new, no row (live or soft-deleted) has the ISBN, and both referenced rows exist |
| Store.Database.AuthorInsertError | internal/models/author.go:12-14 | an insert succeeds iff the id is new and no row (live or soft-deleted) has the email |
| Store.Database.CategoryInsertError | internal/models/category.go:11-13 | an insert succeeds iff the id is new and no row (live or soft-deleted) has the name |
| Store.Database.CreateBook | internal/services/book_service.go:31 | BeforeCreate then insert: fails with the violated constraint and no change, or adds exactly the new row at the end of the table |
| Store.Database.CreateAuthor | internal/services/author_service.go:26 | the same for authors |
| Store.Database.CreateCategory | internal/services/category_service.go:26 | the same for categories |
| Store.Database.UpdateBook | internal/services/book_service.go:98-104 | affects 0 rows when no live book has the id; otherwise rewrites only that row with the non-zero fields, or fails with the ISBN violation and changes nothing |
| Store.Database.UpdateAuthor | internal/services/author_service.go:67-73 | the same for authors, failing on the email index |
| Store.Database.UpdateCategory | internal/services/category_service.go:67-73 | the same for categories, failing on the name index |
| Store.Database.SetBookStock | internal/services/book_service.go:191-197 | `Update("stock", n)` changes only that live book's stock and reports 1 row, else 0 rows and no change |
| Store.Database.DeleteBook | internal/services/book_service.go:110-117 | a soft delete: sets only that live row's flag and reports 1 row, else 0 rows and no change |
| Store.Database.DeleteAuthor | internal/services/author_service.go:79-86 | the same for authors |
| Store.Database.DeleteCategory | internal/services/category_service.go:79-86 | the same for categories |
| Services.Message | internal/services/book_service.go:42 | the not-found error reads "<entity> not found" |
| Services.NotFoundMessageIff | internal/handlers/book_handler.go:131-144 | the text "<entity> not found" belongs to exactly one error, so comparing texts recognises it |
| Services.BookService.ValidateAuthorAndCategory | internal/services/book_service.go:202-222 | succeeds iff both rows are live; the author is checked first, so with both missing the error is "author not found" |
| Services.BookService.CreateBook | internal/services/book_service.go:25-35 | nothing is inserted unless author and category exist; then the store's insert decides; a failure leaves the store unchanged and is always a unique-index violation |
| Services.BookService.GetBookById | internal/services/book_service.go:38-47 | the live book with its relations, else "book not found" |
| Services.BookService.PagedBooks | internal/services/book_service.go:55-67 | the page is exactly the rows from offset (page-1)*limit, at most `limit` of them, in order, each with its relations preloaded; the total counts every matching row |
| Services.BookService.GetAllBooks | internal/services/book_service.go:50-68 | exactly the page of live books at offset (page-1)*limit, in order, with relations, and the count of all live books |
| Services.BookService.GetBooksByAuthor | internal/services/book_service.go:121-139 | exactly that page of the author's live books, in order, and their total |
| Services.BookService.GetBooksByCategory | internal/services/book_service.go:142-160 | exactly that page of the category's live books, in order, and their total |
| Services.BookService.SearchResults | internal/services/book_service.go:170 | exactly the live books whose title, ISBN or description contains the query ignoring ASCII case |
| Services.BookService.SearchBooks | internal/services/book_service.go:163-183 | exactly that page of the matching books, in order, and the count of all matches |
| Services.BookService.SearchEmptyIsGetAll | internal/services/book_service.go:167 | an empty query matches every live book, so the search equals GetAllBooks |
| Services.BookService.ListedBooksAreFirstPages | internal/services/book_service.go:50-68 | the first k GetAllBooks pages, concatenated, are the preloaded first k pages of the live books |
| Services.BookService.AllPagesListCatalogue | internal/services/book_service.go:60-63 | the GetAllBooks pages 1..total_pages, concatenated, list every live book exactly once, in order, with relations |
| Services.BookService.UpdateBook | internal/services/book_service.go:71-106 | no existence check when both update ids are Nil; otherwise the effective author and category (update value, else current) must be live; "book not found" when no live book has the id; succeeds iff the book is live, the references pass and the ISBN is free, and then rewrites only that row |
| Services.BookService.DeleteBook | internal/services/book_service.go:109-118 | "book not found" iff no live book has the id; otherwise only that row is soft-deleted |
| Services.BookService.UpdateBookStock | internal/services/book_service.go:186-199 | a negative stock is refused with no change; otherwise only that book's stock changes, or "book not found" |
| Services.AuthorService.CreateAuthor | internal/services/author_service.go:25-30 | the insert's outcome: a unique violation with no change, or exactly the new row |
| Services.AuthorService.GetAuthorById | internal/services/author_service.go:33-42 | the live author with its live books, else "author not found" |
| Services.AuthorService.GetAuthorByEmail | internal/services/author_service.go:90-99 | the first live author whose email equals the argument, else "author not found" |
| Services.AuthorService.PagedAuthors | internal/services/author_service.go:49-62 | exactly the authors from offset (page-1)*limit, at most `limit`, in order, each with its live books; the total counts every matching author |
| Services.AuthorService.GetAllAuthors | internal/services/author_service.go:45-63 | exactly that page of live authors with their books, and their total |
| Services.AuthorService.SearchResults | internal/services/author_service.go:109 | exactly the live authors whose name or email contains the query ignoring ASCII case |
| Services.AuthorService.SearchAuthors | internal/services/author_service.go:102-122 | exactly that page of the matching authors, in order, and the count of all matches |
| Services.AuthorService.SearchEmptyIsGetAll | internal/services/author_service.go:106 | an empty query lists every live author |
| Services.AuthorService.UpdateAuthor | internal/services/author_service.go:66-75 | "author not found" when no live author has the id; an email clash fails with no change; succeeds iff the author is live and the email is free, and then only that row changes |
| Services.AuthorService.DeleteAuthor | internal/services/author_service.go:78-87 | "author not found" iff no live author has the id; otherwise only that row is soft-deleted |
| Services.CategoryService.CreateCategory | internal/services/category_service.go:25-30 | the insert's outcome: a unique violation with no change, or exactly the new row |
| Services.CategoryService.GetCategoryById | internal/services/category_service.go:33-42 | the live category with its live books, else "category not found" |
| Services.CategoryService.GetCategoryByName | internal/services/category_service.go:90-99 | the first live category with that name, else "category not found" |
| Services.CategoryService.PagedCategories | internal/services/category_service.go:49-62 | exactly the categories from offset (page-1)*limit, at most `limit`, in order, each with its live books; the total counts every matching category |
| Services.CategoryService.GetAllCategories | internal/services/category_service.go:45-63 | exactly that page of live categories with their books, and their total |
| Services.CategoryService.SearchResults | internal/services/category_service.go:109 | exactly the live categories whose name or description contains the query ignoring ASCII case |
| Services.CategoryService.SearchCategories | internal/services/category_service.go:102-122 | exactly that page of the matching categories, in order, and the count of all matches |
| Services.CategoryService.SearchEmptyIsGetAll | internal/services/category_service.go:106 | an empty query lists every live category |
| Services.CategoryService.UpdateCategory | internal/services/category_service.go:66-75 | "category not found" when no live category has the id; a name clash fails with no change; succeeds iff the category is live and the name is free, and then only that row changes |
| Services.CategoryService.DeleteCategory | internal/services/category_service.go:78-87 | "category not found" iff no live category has the id; otherwise only that row is soft-deleted |
| Pagination.Offset | internal/services/book_service.go:60 | the offset (page-1)*limit is never negative and is 0 exactly on page 1 |
| Pagination.Page | internal/services/book_service.go:63 | Offset/Limit: at most `limit` rows, the consecutive run of rows starting at the offset |
| Pagination.TotalPages | internal/handlers/author_handler.go:135 | ⌈total/limit⌉: 0 iff total is 0, and the smallest count of pages of `limit` rows that holds `total` rows |
| Pagination.PageNonEmptyIff | internal/handlers/book_handler.go:174 | page p has rows iff p ≤ total_pages |
| Pagination.FirstPagesArePrefix | internal/services/book_service.go:60-63 | consecutive pages concatenate to a prefix of the rows |
| Pagination.PagesCoverAllRows | internal/services/book_service.go:60-63 | total_pages pages list every row exactly once, in order |
| Handlers.GetPaginationParams | internal/handlers/author_handler.go:263-280 | page ≥ 1 and 1 ≤ limit ≤ 100; page adopted iff it parses and is positive; limit adopted iff it parses and lies in 1..100 |
| Handlers.PagingDefaults | internal/handlers/author_handler.go:264-265 | without parameters the result is page 1, limit 10 |
| Handlers.PagingRoundTrip | internal/handlers/author_handler.go:267-277 | decimal page and limit values within range are adopted exactly |
| Handlers.PagingIndependent | internal/handlers/author_handler.go:267-277 | a bad page never affects the limit and a bad limit never affects the page |
| Handlers.LimitAboveCapFallsBack | internal/handlers/author_handler.go:273-277 | a limit above 100 becomes 10, not 100 |
| Handlers.ListingOf | internal/handlers/book_handler.go:174 | total_pages is ⌈total/limit⌉ and 0 iff total is 0 |
| Handlers.ParseId | internal/handlers/category_handler.go:78-86 | an unparseable id answers 400 with the parser's error as details |
| Handlers.SearchGuard | internal/handlers/category_handler.go:225-231 | refuses exactly the empty query, with 400 "Search query is required" |
| Handlers.ServiceFailure | internal/handlers/category_handler.go:89-100 | 404 iff the error is the entity's own not-found error; otherwise 500 with the error text |
| Handlers.StockViolations | internal/handlers/book_handler.go:50-52 | `required,min=0` on an int: no violation iff the stock is positive; 0 fails `required`, a negative stock fails `min` |
| Handlers.ZeroStockRefused | internal/handlers/book_handler.go:428-435 | a stock of 0 is answered 400 "Stock is required" |
| Handlers.NegativeStockRefused | internal/handlers/book_handler.go:428-435 | a negative stock is answered 400 "Stock must be at least 0 characters long" |
| Handlers.MissingReferenceIsServerError | internal/handlers/book_handler.go:249-260 | "author not found" and "category not found" from a book update answer 500 |
| Handlers.BookUpdatesFor | internal/handlers/book_handler.go:209-247 | title, ISBN, description and date verbatim; price and stock only when present; an empty id stays Nil; an unparseable id is a 400, the author's first |
| Handlers.BuildBookUpdates | internal/handlers/book_handler.go:209-247 | the in-place construction yields exactly BookUpdatesFor |
| Handlers.ZeroStockUpdateIsIgnored | internal/handlers/book_handler.go:242-247 | a stock or price of 0 in the request reaches the service but leaves the stored value unchanged |
| Handlers.BookHandler.CreateBook | internal/handlers/book_handler.go:55-117 | validation, then author id, then category id; any of them fails with 400 and no change; for a well-formed request, success iff author and category are live and the insert succeeds, and then exactly the request's row with a fresh id is appended; otherwise 500 with no change |
| Handlers.BookHandler.GetBook | internal/handlers/book_handler.go:120-151 | 400 for a bad id; otherwise Ok iff a live book has the id, and then the data is that book with its author and category loaded; 404 exactly when it is missing |
| Handlers.BookHandler.GetAllBooks | internal/handlers/book_handler.go:154-177 | the normalised page and limit; data is exactly that page of live books with relations; total counts every live book; total_pages is ⌈total/limit⌉ |
| Handlers.BookHandler.SearchBooks | internal/handlers/book_handler.go:374-405 | an empty query is refused before the service; otherwise data is exactly the normalised page of matches, total counts all matches, total_pages is ⌈total/limit⌉ |
| Handlers.BookHandler.UpdateBook | internal/handlers/book_handler.go:180-267 | id, validation and id-field errors answer 400 with no change; for a well-formed request, success iff the book is live, any named author and category (update value, else current) are live and the ISBN clashes with no other row; 404 iff the book is missing, other failures 500, both with no change; success changes only that row, to BookUpdatesFor's record applied over it |
| Handlers.BookHandler.DeleteBook | internal/handlers/book_handler.go:270-299 | 400 for a bad id with no change; success iff the book was live, and then only its soft-delete flag is set; otherwise 404 with no change |
| Handlers.BookHandler.UpdateBookStock | internal/handlers/book_handler.go:408-455 | 400 for a bad id, and 400 from validation for any stock ≤ 0, with no change; 404 with no change when missing; otherwise only that book's stock is set |
| Handlers.AuthorHandler.GetAuthor | internal/handlers/author_handler.go:81-112 | 400 for a bad id; otherwise Ok iff a live author has the id, and then the data is that author with its live books; 404 "Author not found" exactly when it is missing |
| Handlers.AuthorHandler.SearchAuthors | internal/handlers/author_handler.go:229-260 | an empty query is refused before the service; otherwise data is exactly the normalised page of matching authors and total counts all matches |
| Handlers.CategoryHandler.GetCategory | internal/handlers/category_handler.go:77-108 | 400 with the parser's error for a bad id; otherwise Ok iff a live category has the id, and then the data is that category with its live books; 404 exactly when it is missing |
| Handlers.CategoryHandler.SearchCategories | internal/handlers/category_handler.go:224-255 | an empty query is refused before the service; otherwise data is exactly the normalised page of matching categories and total counts all matches |
| Handlers.CategoryHandler.UpdateCategory | internal/handlers/category_handler.go:137-189 | 400 for bad id or validation with no change; for a valid request, success iff the category is live and the new name clashes with no other row; failures (404 or 500) change nothing; success changes only that row, to name and description applied over it |
| Handlers.CategoryHandler.DeleteCategory | internal/handlers/category_handler.go:192-221 | 400 for a bad id; success iff the category was live, then only its soft-delete flag is set; otherwise 404 with no change |
| Grpc.ErrorReply | internal/grpc/author_service.go:46-56 | NotFound iff the error is the entity's own not-found error; otherwise Internal with the error text |
| Grpc.NormalizePaging | internal/grpc/book_service.go:97-105 | page ≤ 0 becomes 1 and limit ≤ 0 becomes 10; positive values are kept; both fit int32 |
| Grpc.NoUpperCapOnLimit | internal/grpc/book_service.go:103-105 | a limit above 100 is kept |
| Grpc.PaginationOf | internal/grpc/book_service.go:124-129 | total_pages is ⌈total/limit⌉ and 0 iff total is 0 |
| Grpc.BookProto | internal/grpc/book_service.go:388-417 | date only when present; author and category messages iff their id is not Nil; stock kept when within int32 |
| Grpc.AuthorProto | internal/grpc/author_service.go:207-223 | one book message per loaded book, same length and order |
| Grpc.CategoryProto | internal/grpc/category_service.go:204-220 | one book message per loaded book, same length and order |
| Grpc.BooksProto | internal/grpc/book_service.go:115-118 | one message per book, in order |
| Grpc.AuthorsProto | internal/grpc/author_service.go:86-89 | one message per author, in order |
| Grpc.CategoriesProto | internal/grpc/category_service.go:85-88 | one message per category, in order |
| Grpc.WideStockWrapsAround | internal/grpc/book_service.go:395 | a stock of 2^31 is sent as -2^31 |
| Grpc.UnloadedRelationsAreAbsent | internal/grpc/book_service.go:406-414 | a book without loaded relations carries no author or category message |
| Grpc.ConvertBookToProto | internal/grpc/book_service.go:388-417 | the in-place conversion equals BookProto |
| Grpc.ConvertAuthorToProto | internal/grpc/author_service.go:207-223 | the append loop equals AuthorProto |
| Grpc.ConvertCategoryToProto | internal/grpc/category_service.go:204-220 | the append loop equals CategoryProto |
| Grpc.ConvertBooks | internal/grpc/book_service.go:248-251 | the list loop equals BooksProto |
| Grpc.ConvertAuthors | internal/grpc/author_service.go:188-191 | the list loop equals AuthorsProto |
| Grpc.ConvertCategories | internal/grpc/category_service.go:186-189 | the list loop equals CategoriesProto |
| Grpc.PublishedAtOf | internal/grpc/book_service.go:32-37 | an empty or unparseable date is dropped without an error |
| Grpc.BookToCreate | internal/grpc/book_service.go:16-48 | a bad author id is refused before the category id is looked at; fields copied as sent, stock of any sign |
| Grpc.BookUpdatesFrom | internal/grpc/book_service.go:143-178 | title, ISBN, description, price and stock copied unconditionally; ids only when non-empty, and then they must parse (author first) |
| Grpc.BuildBookUpdates | internal/grpc/book_service.go:143-178 | the in-place construction yields exactly BookUpdatesFrom |
| Grpc.OmittedPriceAndStockKeepStoredValues | internal/grpc/book_service.go:147-148 | a zero price and stock, though copied, leave the stored values unchanged |
| Grpc.GrpcServer.constructor | internal/grpc/server.go:27-33 | the three services share one database, as each takes `database.GetDB()` |
| Grpc.GrpcServer.CreateBook | internal/grpc/book_service.go:15-62 | argument errors with no change; success iff author and category exist and the insert succeeds, whatever the stock's sign, and then exactly the request's row with a fresh id is appended; the author and category checked are live as the other services see them; failures are Internal with no change |
| Grpc.GrpcServer.GetBook | internal/grpc/book_service.go:65-93 | InvalidArgument for a bad id; success iff the book is live, with its converted message; otherwise NotFound |
| Grpc.GrpcServer.GetAllBooks | internal/grpc/book_service.go:96-131 | the normalised page of books, converted in order, with ⌈total/limit⌉ pages |
| Grpc.GrpcServer.SearchBooks | internal/grpc/book_service.go:229-264 | no empty-query guard: an empty query's total is the number of live books |
| Grpc.GrpcServer.GetBooksByAuthor | internal/grpc/book_service.go:267-310 | InvalidArgument for a bad id; otherwise the service's page converted in order |
| Grpc.GrpcServer.GetBooksByCategory | internal/grpc/book_service.go:313-356 | InvalidArgument for a bad id; otherwise the service's page converted in order |
| Grpc.GrpcServer.UpdateBook | internal/grpc/book_service.go:134-197 | argument errors with no change; NotFound iff the book is missing; success iff the book is live, any named references are live and the ISBN is free; every other failure is Internal; failures change nothing; success changes only that row, to BookUpdatesFrom's record applied over it |
| Grpc.GrpcServer.DeleteBook | internal/grpc/book_service.go:200-226 | success iff the book was live, and then only its soft-delete flag is set; otherwise NotFound with no change |
| Grpc.GrpcServer.UpdateBookStock | internal/grpc/book_service.go:359-385 | a negative stock is Internal "stock cannot be negative" with no change; NotFound with no change when missing; otherwise only that book's stock is set, 0 included |
| Grpc.GrpcServer.CreateAuthor | internal/grpc/author_service.go:14-33 | name, email and biography copied unchanged; success iff the insert succeeds, and then exactly that row is appended |
| Grpc.GrpcServer.GetAuthor | internal/grpc/author_service.go:36-64 | success iff the author is live; otherwise NotFound "Author not found" |
| Grpc.GrpcServer.GetAllAuthors | internal/grpc/author_service.go:67-102 | the normalised page of authors, converted in order |
| Grpc.GrpcServer.SearchAuthors | internal/grpc/author_service.go:169-204 | the normalised page of matches, converted in order |
| Grpc.GrpcServer.UpdateAuthor | internal/grpc/author_service.go:105-137 | fields copied unchanged; NotFound iff the author is missing; success iff the author is live and the email is free; every other failure is Internal with no change; success changes only that row |
| Grpc.GrpcServer.DeleteAuthor | internal/grpc/author_service.go:140-166 | success iff the author was live, then only its soft-delete flag is set; otherwise NotFound with no change |
| Grpc.GrpcServer.CreateCategory | internal/grpc/category_service.go:14-32 | name and description copied unchanged; success iff the insert succeeds, and then exactly that row is appended |
| Grpc.GrpcServer.GetCategory | internal/grpc/category_service.go:35-63 | success iff the category is live; otherwise NotFound "Category not found" |
| Grpc.GrpcServer.GetAllCategories | internal/grpc/category_service.go:66-101 | the normalised page of categories, converted in order |
| Grpc.GrpcServer.SearchCategories | internal/grpc/category_service.go:167-202 | the normalised page of matches, converted in order |
| Grpc.GrpcServer.UpdateCategory | internal/grpc/category_service.go:104-135 | fields copied unchanged; NotFound iff the category is missing; success iff the category is live and the name is free; every other failure is Internal with no change; success changes only that row |
| Grpc.GrpcServer.DeleteCategory | internal/grpc/category_service.go:137-164 | success iff the category was live, then only its soft-delete flag is set; otherwise NotFound with no change |
| Middleware.RequireAuth | internal/middleware/auth.go:18-63 | the checks in order: empty header, missing case-sensitive "Bearer ", empty token, token under 10 bytes, each with its own 401 message; otherwise the placeholder user |
| Middleware.OptionalAuth | internal/middleware/auth.go:66-77 | never rejects; attaches the placeholder user iff the header is "Bearer " and a token of at least 10 bytes |
| Middleware.AcceptedIff | internal/middleware/auth.go:24-59 | accepted iff the header is "Bearer " followed by a token of at least 10 UTF-8 bytes |
| Middleware.RejectionReasons | internal/middleware/auth.go:23-55 | the first failing check decides the message |
| Middleware.TokenLengthCountsBytes | internal/middleware/auth.go:50 | a token of six two-byte characters is accepted: the length is counted in bytes |
| Middleware.SchemeIsCaseSensitive | internal/middleware/auth.go:32-37 | "bearer " with a valid token is refused as an invalid format |
| Middleware.OptionalAgreesWithRequired | internal/middleware/auth.go:69-74 | OptionalAuth attaches a user exactly when RequireAuth would accept |
| Validation.FieldMessage | internal/utils/validation.go:26-41 | each known tag has its template; any other tag gives "<field> is invalid"; min, max and len speak of characters |
| Validation.Messages | internal/utils/validation.go:20-43 | one message per error, in order |
| Validation.ValidateStruct | internal/utils/validation.go:17-47 | nil iff there is no error; otherwise the messages joined with "; " |
| Validation.MessageIsPlain | internal/utils/validation.go:26-41 | a message has no ';' when its field and parameter have none |
| Validation.MessagesRecoverable | internal/utils/validation.go:44 | splitting the joined text at "; " gives back exactly the messages |
| Logging.Rank | internal/utils/logger.go:13-18 | the level values are 0..3 |
| Logging.LevelOrder | internal/utils/logger.go:13-18 | DEBUG < INFO < WARN < ERROR, a total order with distinct values |
| Logging.FormatLine | internal/utils/logger.go:56-69 | the format string's output: "[time] LEVEL message", followed by " - data" only when there is data |
| Logging.DataOnlyWhenPresent | internal/utils/logger.go:59-68 | the line with data is the line without it plus " - data" |
| Logging.Logger.constructor | internal/utils/logger.go:20 | the initial level is INFO |
| Logging.Logger.SetLogLevel | internal/utils/logger.go:23-25 | replaces the level and nothing else |
| Logging.Logger.Log | internal/utils/logger.go:56-69 | writes a line iff the current level is at or below the call's level |
| Logging.Logger.LogInfo | internal/utils/logger.go:28-32 | writes iff the level is DEBUG or INFO |
| Logging.Logger.LogError | internal/utils/logger.go:35-39 | writes at every level |
| Logging.Logger.LogWarn | internal/utils/logger.go:42-46 | writes unless the level is ERROR |
| Logging.Logger.LogDebug | internal/utils/logger.go:49-53 | writes only at DEBUG |
| Logging.Logger.LogRequest | internal/utils/logger.go:82-97 | ERROR iff the request failed, so a failure is always written; INFO otherwise |
| Text.Atoi | internal/handlers/author_handler.go:267 | `strconv.Atoi`: any value it yields lies within int64, and the empty string is an error |
| Text.AtoiDecimal | internal/handlers/author_handler.go:267 | the decimal text of a value in int64 range parses back to it |
| Text.EmptyQueryMatches | internal/services/book_service.go:167 | `ILIKE '%%'` matches every string |
| Text.ContainsFoldIgnoresQueryCase | internal/services/book_service.go:170 | ILIKE ignores the case of the query: a query and its lower-case form match the same strings |
| Text.Utf8Len | internal/middleware/auth.go:50 | Go's `len` on a string: between one and four bytes per character, and one per character for ASCII |
| Text.Utf8LenAppend | internal/middleware/auth.go:50 | the byte length of a concatenation is the sum of the byte lengths |

## Left out

- The schema-migration ledger, the database connection singleton, the HTTP
  and gRPC server wiring, the rate limiter, the request-logger middleware,
  the docs and health handlers: I/O, concurrency or library configuration.
- JSON and protobuf serialisation, and request-body parse failures (the
  handlers' "Invalid request body" branch). Requests arrive as decoded
  values.
- go-playground/validator's own tag checks on the create and update bodies.
  The errors it reports are an input (`violations`); only their rendering
  is modelled. The one-field stock body is the exception: its
  `required,min=0` check is `Handlers.StockViolations`.
- Database connectivity and driver errors. Only constraint violations are
  modelled, so the read paths cannot fail, and their 500 and Internal
  branches are absent. Constraint names follow gorm's conventions, and the
  error texts are approximations of the driver's.
- gorm's automatic `CreatedAt`/`UpdatedAt` stamping and association
  upserts on create. Timestamps are opaque values that the model never
  changes.
- UUID and RFC 3339 parsing and formatting, which are parameters (`Codecs`).
  `uuid.New` is `NewUuid(seed)`, fresh up to a primary-key collision that
  the store reports.
- ILIKE wildcards: `%` and `_` inside a query, and Unicode case folding.
  Matching is literal containment after ASCII folding.
- Rows are returned in insertion order, standing for PostgreSQL's
  unspecified order without ORDER BY.
- Float arithmetic on prices; a price is opaque and only its zero value
  matters.
- Go `int`/`int64` overflow in `(page-1)*limit` and `total+limit-1`.
  Integers are unbounded; only the `int32` conversion in proto messages is
  modelled.
- `fmt.Errorf` uses the joined validation text as a format string.
  `Validation.ValidateStruct` treats the text as verbatim, which matches the
  code when no field name or parameter contains '%'.
- The JSON-marshal failure branch of `logMessage`. The clock is a
  parameter (`unixSeconds`).
- Logging.FormatLine: is the output of `logMessage`'s format string only.
  `log.Printf` writes it after the standard logger's "YYYY/MM/DD HH:MM:SS "
  prefix, which comes from the wall clock and is not modelled.
- `Models.Book.BeforeCreate`: returns the updated record instead of
  assigning `b.ID` in place. `Models.Author.BeforeCreate` and
  `Models.Category.BeforeCreate` do the same.
- Services.BookService.GetAllBooks: requires page ≥ 1 and limit ≥ 1. Every
  caller normalises first; the other paged readers require the same.
- How soft delete interacts with the ON DELETE RESTRICT foreign keys: a
  soft-deleted author or category still satisfies the constraint.
- The HTTP handlers CreateAuthor, GetAllAuthors, UpdateAuthor,
  DeleteAuthor, CreateCategory, GetAllCategories, GetBooksByAuthor and
  GetBooksByCategory. Their pieces are modelled and shared: paging, id
  parsing, validation, the status mapping and listing.
