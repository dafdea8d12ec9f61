/** The business layer: BookService, AuthorService and CategoryService, each
    holding the shared database. Writes are methods that change the tables;
    reads are functions of the tables. Every read preloads the relationships
    the source asks gorm for. */
module Services {
  import opened Common
  import opened Text
  import opened Pagination
  import opened Models
  import opened Store

  /** The errors the services return, by the text `err.Error()` gives. */
  datatype ServiceError =
    | NotFound(entity: string)                 // "<entity> not found"
    | NegativeStock                            // "stock cannot be negative"
    | Failed(action: string, cause: DbError)   // "failed to <action>: <cause>"

  function Message(e: ServiceError): (m: string)
    ensures e.NotFound? ==> m == e.entity + " not found"
  {
    match e
    case NotFound(entity) => entity + " not found"
    case NegativeStock => "stock cannot be negative"
    case Failed(action, cause) => "failed to " + action + ": " + DbErrorText(cause)
  }

  /** The three entity names the not-found errors use. */
  predicate IsEntity(name: string) {
    name == "book" || name == "author" || name == "category"
  }

  /** Handlers recognise a not-found error by comparing its text: the text
      is "<entity> not found" for exactly one error. */
  lemma NotFoundMessageIff(e: ServiceError, entity: string)
    requires IsEntity(entity)
    ensures Message(e) == entity + " not found" <==> e == NotFound(entity)
  {
    var m := Message(e);
    var want := entity + " not found";
    if m == want {
      assert m[0] == want[0];
      match e
      case NotFound(x) =>
        assert |x| == |entity|;
        assert x == m[..|x|] && entity == want[..|entity|];
      case _ =>
    }
  }

  /** One page of a list together with the number of matching rows. */
  datatype PagedList<T> = PagedList(items: seq<T>, total: nat)

  class BookService {
    const db: Database

    constructor (db: Database)
      ensures this.db == db
    {
      this.db := db;
    }

    /** validateAuthorAndCategory: the author is checked before the category,
        and a soft-deleted row counts as missing. */
    function ValidateAuthorAndCategory(authorId: Id, categoryId: Id): (r: Option<ServiceError>)
      reads db
      ensures r.None? <==> db.IsLiveAuthor(authorId) && db.IsLiveCategory(categoryId)
      ensures !db.IsLiveAuthor(authorId) ==> r == Some(NotFound("author"))
      ensures db.IsLiveAuthor(authorId) && !db.IsLiveCategory(categoryId) ==> r == Some(NotFound("category"))
    {
      if !db.IsLiveAuthor(authorId) then Some(NotFound("author"))
      else if !db.IsLiveCategory(categoryId) then Some(NotFound("category"))
      else None
    }

    method CreateBook(book: Book, seed: nat) returns (r: Result<Book, ServiceError>)
      requires db.Valid()
      modifies db
      ensures db.Valid()
      ensures old(ValidateAuthorAndCategory(book.authorId, book.categoryId)).Some? ==>
        r == Err(old(ValidateAuthorAndCategory(book.authorId, book.categoryId)).value) && db.State() == old(db.State())
      ensures old(ValidateAuthorAndCategory(book.authorId, book.categoryId)).None? ==>
        var row := book.(id := AssignedId(book.id, seed));
        match old(db.BookInsertError(row))
        case Some(e) => r == Err(Failed("create book", e)) && db.State() == old(db.State())
        case None =>
          r == Ok(row) &&
          db.State() == old(db.State()).(books := old(db.books)[row.id := BookColumns(row)],
                                         bookOrder := old(db.bookOrder) + [row.id])
      // The existence check leaves only the unique indexes to fail.
      ensures r.Err? && r.error.Failed? ==> r.error.cause.UniqueViolation?
    {
      var invalid := ValidateAuthorAndCategory(book.authorId, book.categoryId);
      if invalid.Some? {
        return Err(invalid.value);
      }
      var created := db.CreateBook(book, seed);
      match created
      case Err(e) =>
        r := Err(Failed("create book", e));
      case Ok(row) =>
        r := Ok(row);
    }

    /** GetBookByID: the live book with that id, author and category loaded. */
    function GetBookById(id: Id): (r: Result<Book, ServiceError>)
      reads db
      ensures r.Ok? <==> db.IsLiveBook(id)
      ensures r.Ok? ==> r.value == db.WithRelations(db.books[id])
      ensures r.Err? ==> r.error == NotFound("book")
    {
      match db.FindBook(id)
      case None => Err(NotFound("book"))
      case Some(b) => Ok(db.WithRelations(b))
    }

    /** `items` is page `page` of `rows` under `OFFSET (page-1)*limit LIMIT
        limit`: as many books as that page holds, in the order of `rows`,
        each with its author and category loaded. */
    predicate IsBookPage(items: seq<Book>, rows: seq<Book>, page: int, limit: int)
      reads db
      requires page >= 1 && limit >= 1
    {
      && |items| == |Page(rows, Offset(page, limit), limit)|
      && forall i :: 0 <= i < |items| ==>
           Offset(page, limit) + i < |rows| && items[i] == db.WithRelations(rows[Offset(page, limit) + i])
    }

    /** The page `page` of `rows` with relationships loaded, and the count of
        all of `rows`. */
    function PagedBooks(rows: seq<Book>, page: int, limit: int): (r: PagedList<Book>)
      reads db
      requires page >= 1 && limit >= 1
      ensures r.total == |rows|
      ensures |r.items| <= limit
      ensures IsBookPage(r.items, rows, page, limit)
    {
      PagedList(db.PreloadBooks(Page(rows, Offset(page, limit), limit)), |rows|)
    }

    function GetAllBooks(page: int, limit: int): (r: PagedList<Book>)
      reads db
      requires db.Valid()
      requires page >= 1 && limit >= 1
      ensures r.total == |db.LiveBooks()|
      ensures |r.items| <= limit
      ensures IsBookPage(r.items, db.LiveBooks(), page, limit)
    {
      PagedBooks(db.LiveBooks(), page, limit)
    }

    function GetBooksByAuthor(authorId: Id, page: int, limit: int): (r: PagedList<Book>)
      reads db
      requires db.Valid()
      requires page >= 1 && limit >= 1
      ensures r.total == |db.BooksOfAuthor(authorId)|
      ensures |r.items| <= limit
      ensures IsBookPage(r.items, db.BooksOfAuthor(authorId), page, limit)
      ensures forall b :: b in r.items ==>
        b.authorId == authorId && db.IsLiveBook(b.id) && b == db.WithRelations(db.books[b.id])
    {
      var rows := db.BooksOfAuthor(authorId);
      var r := PagedBooks(rows, page, limit);
      r
    }

    function GetBooksByCategory(categoryId: Id, page: int, limit: int): (r: PagedList<Book>)
      reads db
      requires db.Valid()
      requires page >= 1 && limit >= 1
      ensures r.total == |db.BooksOfCategory(categoryId)|
      ensures |r.items| <= limit
      ensures IsBookPage(r.items, db.BooksOfCategory(categoryId), page, limit)
      ensures forall b :: b in r.items ==>
        b.categoryId == categoryId && db.IsLiveBook(b.id) && b == db.WithRelations(db.books[b.id])
    {
      var rows := db.BooksOfCategory(categoryId);
      var r := PagedBooks(rows, page, limit);
      r
    }

    /** `title ILIKE %q% OR isbn ILIKE %q% OR description ILIKE %q%`. */
    static predicate BookMatches(b: Book, query: string) {
      ContainsFold(b.title, query) || ContainsFold(b.isbn, query) || ContainsFold(b.description, query)
    }

    function SearchResults(query: string): (r: seq<Book>)
      reads db
      requires db.Valid()
      ensures forall b :: b in r <==> b in db.LiveBooks() && BookMatches(b, query)
    {
      Filter(db.LiveBooks(), (b: Book) => BookMatches(b, query))
    }

    /** The count and the page use the same filter. */
    function SearchBooks(query: string, page: int, limit: int): (r: PagedList<Book>)
      reads db
      requires db.Valid()
      requires page >= 1 && limit >= 1
      ensures r.total == |SearchResults(query)|
      ensures |r.items| <= limit
      ensures IsBookPage(r.items, SearchResults(query), page, limit)
      ensures forall b :: b in r.items ==>
        BookMatches(b, query) && db.IsLiveBook(b.id) && b == db.WithRelations(db.books[b.id])
    {
      var rows := SearchResults(query);
      var r := PagedBooks(rows, page, limit);
      r
    }

    /** Every book matches the empty query, so searching for "" lists the
        whole catalogue page by page. */
    lemma SearchEmptyIsGetAll(page: int, limit: int)
      requires db.Valid()
      requires page >= 1 && limit >= 1
      ensures SearchBooks("", page, limit) == GetAllBooks(page, limit)
    {
      forall b | b in db.LiveBooks() ensures BookMatches(b, "") {
        EmptyQueryMatches(b.title);
      }
      FilterAll(db.LiveBooks(), (b: Book) => BookMatches(b, ""));
    }

    /** The books GetAllBooks returns on pages 1 .. k, one page after another. */
    function ListedBooks(limit: int, k: nat): seq<Book>
      reads db
      requires db.Valid()
      requires limit >= 1
    {
      if k == 0 then [] else ListedBooks(limit, k - 1) + GetAllBooks(k, limit).items
    }

    /** Pages 1 .. k list the first k pages of the live books, relations loaded. */
    lemma {:induction false} ListedBooksAreFirstPages(limit: int, k: nat)
      requires db.Valid()
      requires limit >= 1
      ensures ListedBooks(limit, k) == db.PreloadBooks(FirstPages(db.LiveBooks(), limit, k))
    {
      if k > 0 {
        ListedBooksAreFirstPages(limit, k - 1);
        PreloadBooksAppend(FirstPages(db.LiveBooks(), limit, k - 1), Page(db.LiveBooks(), Offset(k, limit), limit));
      }
    }

    lemma PreloadBooksAppend(a: seq<Book>, b: seq<Book>)
      ensures db.PreloadBooks(a + b) == db.PreloadBooks(a) + db.PreloadBooks(b)
    {
      var l, r := db.PreloadBooks(a + b), db.PreloadBooks(a) + db.PreloadBooks(b);
      assert |l| == |r|;
      forall i | 0 <= i < |l| ensures l[i] == r[i] {
        if i < |a| {
          assert (a + b)[i] == a[i];
        } else {
          assert (a + b)[i] == b[i - |a|];
        }
      }
    }

    /** Reading GetAllBooks pages 1 .. total_pages, where total_pages comes
        from the first reply, returns every live book exactly once, in order,
        with its relations loaded. */
    lemma AllPagesListCatalogue(limit: int)
      requires db.Valid()
      requires limit >= 1
      ensures ListedBooks(limit, TotalPages(GetAllBooks(1, limit).total, limit)) == db.PreloadBooks(db.LiveBooks())
    {
      ListedBooksAreFirstPages(limit, TotalPages(GetAllBooks(1, limit).total, limit));
      PagesCoverAllRows(db.LiveBooks(), limit);
    }

    /** When UpdateBook succeeds: the book is live, the author and category
        it will have are live whenever the update names one of them, and the
        rewritten row clashes with no other ISBN. */
    predicate UpdateSucceeds(id: Id, updates: Book)
      reads db
    {
      db.IsLiveBook(id)
      && var row := ApplyBookUpdates(db.books[id], updates);
         ((updates.authorId == Nil && updates.categoryId == Nil)
          || ValidateAuthorAndCategory(row.authorId, row.categoryId).None?)
         && db.BookUpdateError(row).None?
    }

    /** UpdateBook. When the update names an author or a category, the book
        must exist and the author and category it will have afterwards must
        be live; otherwise nothing is checked before the UPDATE. */
    method UpdateBook(id: Id, updates: Book) returns (r: Option<ServiceError>)
      requires db.Valid()
      modifies db
      ensures db.Valid()
      ensures r.None? <==> old(UpdateSucceeds(id, updates))
      ensures !old(db.IsLiveBook(id)) ==> r == Some(NotFound("book")) && db.State() == old(db.State())
      ensures old(db.IsLiveBook(id)) ==>
        var row := ApplyBookUpdates(old(db.books[id]), updates);
        var check := if updates.authorId == Nil && updates.categoryId == Nil then None
                     else old(ValidateAuthorAndCategory(row.authorId, row.categoryId));
        if check.Some? then r == check && db.State() == old(db.State())
        else match old(db.BookUpdateError(row))
          case Some(e) => r == Some(Failed("update book", e)) && db.State() == old(db.State())
          case None => r == None && db.State() == old(db.State()).(books := old(db.books)[id := row])
      ensures r.Some? && r.value.Failed? ==> r.value.cause == UniqueViolation(BooksIsbnIndex)
    {
      if updates.authorId != Nil || updates.categoryId != Nil {
        var current := db.FindBook(id);
        if current.None? {
          return Some(NotFound("book"));
        }
        var authorId := current.value.authorId;
        var categoryId := current.value.categoryId;
        if updates.authorId != Nil {
          authorId := updates.authorId;
        }
        if updates.categoryId != Nil {
          categoryId := updates.categoryId;
        }
        var invalid := ValidateAuthorAndCategory(authorId, categoryId);
        if invalid.Some? {
          return invalid;
        }
      }
      var result := db.UpdateBook(id, updates);
      match result
      case Err(e) =>
        r := Some(Failed("update book", e));
      case Ok(affected) =>
        r := if affected == 0 then Some(NotFound("book")) else None;
    }

    method DeleteBook(id: Id) returns (r: Option<ServiceError>)
      requires db.Valid()
      modifies db
      ensures db.Valid()
      ensures r.None? <==> old(db.IsLiveBook(id))
      ensures r.Some? ==> r.value == NotFound("book") && db.State() == old(db.State())
      ensures r.None? ==> db.State() == old(db.State()).(books := old(db.books)[id := old(db.books[id]).(deleted := true)])
    {
      var affected := db.DeleteBook(id);
      r := if affected == 0 then Some(NotFound("book")) else None;
    }

    /** UpdateBookStock: a negative stock is refused before the store is
        touched; otherwise only that book's stock changes. */
    method UpdateBookStock(id: Id, newStock: int) returns (r: Option<ServiceError>)
      requires db.Valid()
      modifies db
      ensures db.Valid()
      ensures newStock < 0 ==> r == Some(NegativeStock) && db.State() == old(db.State())
      ensures newStock >= 0 && !old(db.IsLiveBook(id)) ==> r == Some(NotFound("book")) && db.State() == old(db.State())
      ensures newStock >= 0 && old(db.IsLiveBook(id)) ==>
        r == None && db.State() == old(db.State()).(books := old(db.books)[id := old(db.books[id]).(stock := newStock)])
    {
      if newStock < 0 {
        return Some(NegativeStock);
      }
      var affected := db.SetBookStock(id, newStock);
      r := if affected == 0 then Some(NotFound("book")) else None;
    }
  }

  class AuthorService {
    const db: Database

    constructor (db: Database)
      ensures this.db == db
    {
      this.db := db;
    }

    method CreateAuthor(author: Author, seed: nat) returns (r: Result<Author, ServiceError>)
      requires db.Valid()
      modifies db
      ensures db.Valid()
      ensures var row := author.(id := AssignedId(author.id, seed));
        match old(db.AuthorInsertError(row))
        case Some(e) => r == Err(Failed("create author", e)) && db.State() == old(db.State())
        case None =>
          r == Ok(row) &&
          db.State() == old(db.State()).(authors := old(db.authors)[row.id := AuthorColumns(row)],
                                         authorOrder := old(db.authorOrder) + [row.id])
    {
      var created := db.CreateAuthor(author, seed);
      match created
      case Err(e) =>
        r := Err(Failed("create author", e));
      case Ok(row) =>
        r := Ok(row);
    }

    /** GetAuthorByID: the live author with that id, its live books loaded. */
    function GetAuthorById(id: Id): (r: Result<Author, ServiceError>)
      reads db
      requires db.Valid()
      ensures r.Ok? <==> db.IsLiveAuthor(id)
      ensures r.Ok? ==> r.value == db.AuthorWithBooks(db.authors[id])
      ensures r.Err? ==> r.error == NotFound("author")
    {
      match db.FindAuthor(id)
      case None => Err(NotFound("author"))
      case Some(a) => Ok(db.AuthorWithBooks(a))
    }

    /** GetAuthorByEmail: the live author with exactly that email. */
    function GetAuthorByEmail(email: string): (r: Result<Author, ServiceError>)
      reads db
      requires db.Valid()
      ensures r.Ok? <==> exists a :: a in db.LiveAuthors() && a.email == email
      ensures r.Ok? ==> r.value.email == email && db.IsLiveAuthor(r.value.id)
                        && r.value == db.AuthorWithBooks(db.authors[r.value.id])
      ensures r.Err? ==> r.error == NotFound("author")
    {
      match FirstWhere(db.LiveAuthors(), (a: Author) => a.email == email)
      case None => Err(NotFound("author"))
      case Some(a) => Ok(db.AuthorWithBooks(a))
    }

    /** `items` is page `page` of `rows`, each author with its live books. */
    predicate IsAuthorPage(items: seq<Author>, rows: seq<Author>, page: int, limit: int)
      reads db
      requires db.Valid()
      requires page >= 1 && limit >= 1
    {
      && |items| == |Page(rows, Offset(page, limit), limit)|
      && forall i :: 0 <= i < |items| ==>
           Offset(page, limit) + i < |rows| && items[i] == db.AuthorWithBooks(rows[Offset(page, limit) + i])
    }

    function PagedAuthors(rows: seq<Author>, page: int, limit: int): (r: PagedList<Author>)
      reads db
      requires db.Valid()
      requires page >= 1 && limit >= 1
      ensures r.total == |rows|
      ensures |r.items| <= limit
      ensures IsAuthorPage(r.items, rows, page, limit)
    {
      PagedList(db.PreloadAuthors(Page(rows, Offset(page, limit), limit)), |rows|)
    }

    function GetAllAuthors(page: int, limit: int): (r: PagedList<Author>)
      reads db
      requires db.Valid()
      requires page >= 1 && limit >= 1
      ensures r.total == |db.LiveAuthors()|
      ensures |r.items| <= limit
      ensures IsAuthorPage(r.items, db.LiveAuthors(), page, limit)
    {
      PagedAuthors(db.LiveAuthors(), page, limit)
    }

    /** `name ILIKE %q% OR email ILIKE %q%`. */
    static predicate AuthorMatches(a: Author, query: string) {
      ContainsFold(a.name, query) || ContainsFold(a.email, query)
    }

    function SearchResults(query: string): (r: seq<Author>)
      reads db
      requires db.Valid()
      ensures forall a :: a in r <==> a in db.LiveAuthors() && AuthorMatches(a, query)
    {
      Filter(db.LiveAuthors(), (a: Author) => AuthorMatches(a, query))
    }

    function SearchAuthors(query: string, page: int, limit: int): (r: PagedList<Author>)
      reads db
      requires db.Valid()
      requires page >= 1 && limit >= 1
      ensures r.total == |SearchResults(query)|
      ensures |r.items| <= limit
      ensures IsAuthorPage(r.items, SearchResults(query), page, limit)
      ensures forall a :: a in r.items ==>
        AuthorMatches(a, query) && db.IsLiveAuthor(a.id) && a == db.AuthorWithBooks(db.authors[a.id])
    {
      var rows := SearchResults(query);
      var r := PagedAuthors(rows, page, limit);
      r
    }

    lemma SearchEmptyIsGetAll(page: int, limit: int)
      requires db.Valid()
      requires page >= 1 && limit >= 1
      ensures SearchAuthors("", page, limit) == GetAllAuthors(page, limit)
    {
      forall a | a in db.LiveAuthors() ensures AuthorMatches(a, "") {
        EmptyQueryMatches(a.name);
      }
      FilterAll(db.LiveAuthors(), (a: Author) => AuthorMatches(a, ""));
    }

    /** When UpdateAuthor succeeds: the author is live and its new email
        belongs to no other row. */
    predicate UpdateSucceeds(id: Id, updates: Author)
      reads db
    {
      db.IsLiveAuthor(id) && !db.EmailTaken(ApplyAuthorUpdates(db.authors[id], updates).email, id)
    }

    method UpdateAuthor(id: Id, updates: Author) returns (r: Option<ServiceError>)
      requires db.Valid()
      modifies db
      ensures db.Valid()
      ensures r.None? <==> old(UpdateSucceeds(id, updates))
      ensures !old(db.IsLiveAuthor(id)) ==> r == Some(NotFound("author")) && db.State() == old(db.State())
      ensures old(db.IsLiveAuthor(id)) ==>
        var row := ApplyAuthorUpdates(old(db.authors[id]), updates);
        if old(db.EmailTaken(row.email, id)) then
          r == Some(Failed("update author", UniqueViolation(AuthorsEmailIndex))) && db.State() == old(db.State())
        else
          (r == None && db.State() == old(db.State()).(authors := old(db.authors)[id := row]))
    {
      var result := db.UpdateAuthor(id, updates);
      match result
      case Err(e) =>
        r := Some(Failed("update author", e));
      case Ok(affected) =>
        r := if affected == 0 then Some(NotFound("author")) else None;
    }

    method DeleteAuthor(id: Id) returns (r: Option<ServiceError>)
      requires db.Valid()
      modifies db
      ensures db.Valid()
      ensures r.None? <==> old(db.IsLiveAuthor(id))
      ensures r.Some? ==> r.value == NotFound("author") && db.State() == old(db.State())
      ensures r.None? ==> db.State() == old(db.State()).(authors := old(db.authors)[id := old(db.authors[id]).(deleted := true)])
    {
      var affected := db.DeleteAuthor(id);
      r := if affected == 0 then Some(NotFound("author")) else None;
    }
  }

  class CategoryService {
    const db: Database

    constructor (db: Database)
      ensures this.db == db
    {
      this.db := db;
    }

    method CreateCategory(category: Category, seed: nat) returns (r: Result<Category, ServiceError>)
      requires db.Valid()
      modifies db
      ensures db.Valid()
      ensures var row := category.(id := AssignedId(category.id, seed));
        match old(db.CategoryInsertError(row))
        case Some(e) => r == Err(Failed("create category", e)) && db.State() == old(db.State())
        case None =>
          r == Ok(row) &&
          db.State() == old(db.State()).(categories := old(db.categories)[row.id := CategoryColumns(row)],
                                         categoryOrder := old(db.categoryOrder) + [row.id])
    {
      var created := db.CreateCategory(category, seed);
      match created
      case Err(e) =>
        r := Err(Failed("create category", e));
      case Ok(row) =>
        r := Ok(row);
    }

    function GetCategoryById(id: Id): (r: Result<Category, ServiceError>)
      reads db
      requires db.Valid()
      ensures r.Ok? <==> db.IsLiveCategory(id)
      ensures r.Ok? ==> r.value == db.CategoryWithBooks(db.categories[id])
      ensures r.Err? ==> r.error == NotFound("category")
    {
      match db.FindCategory(id)
      case None => Err(NotFound("category"))
      case Some(c) => Ok(db.CategoryWithBooks(c))
    }

    function GetCategoryByName(name: string): (r: Result<Category, ServiceError>)
      reads db
      requires db.Valid()
      ensures r.Ok? <==> exists c :: c in db.LiveCategories() && c.name == name
      ensures r.Ok? ==> r.value.name == name && db.IsLiveCategory(r.value.id)
                        && r.value == db.CategoryWithBooks(db.categories[r.value.id])
      ensures r.Err? ==> r.error == NotFound("category")
    {
      match FirstWhere(db.LiveCategories(), (c: Category) => c.name == name)
      case None => Err(NotFound("category"))
      case Some(c) => Ok(db.CategoryWithBooks(c))
    }

    /** `items` is page `page` of `rows`, each category with its live books. */
    predicate IsCategoryPage(items: seq<Category>, rows: seq<Category>, page: int, limit: int)
      reads db
      requires db.Valid()
      requires page >= 1 && limit >= 1
    {
      && |items| == |Page(rows, Offset(page, limit), limit)|
      && forall i :: 0 <= i < |items| ==>
           Offset(page, limit) + i < |rows| && items[i] == db.CategoryWithBooks(rows[Offset(page, limit) + i])
    }

    function PagedCategories(rows: seq<Category>, page: int, limit: int): (r: PagedList<Category>)
      reads db
      requires db.Valid()
      requires page >= 1 && limit >= 1
      ensures r.total == |rows|
      ensures |r.items| <= limit
      ensures IsCategoryPage(r.items, rows, page, limit)
    {
      PagedList(db.PreloadCategories(Page(rows, Offset(page, limit), limit)), |rows|)
    }

    function GetAllCategories(page: int, limit: int): (r: PagedList<Category>)
      reads db
      requires db.Valid()
      requires page >= 1 && limit >= 1
      ensures r.total == |db.LiveCategories()|
      ensures |r.items| <= limit
      ensures IsCategoryPage(r.items, db.LiveCategories(), page, limit)
    {
      PagedCategories(db.LiveCategories(), page, limit)
    }

    /** `name ILIKE %q% OR description ILIKE %q%`. */
    static predicate CategoryMatches(c: Category, query: string) {
      ContainsFold(c.name, query) || ContainsFold(c.description, query)
    }

    function SearchResults(query: string): (r: seq<Category>)
      reads db
      requires db.Valid()
      ensures forall c :: c in r <==> c in db.LiveCategories() && CategoryMatches(c, query)
    {
      Filter(db.LiveCategories(), (c: Category) => CategoryMatches(c, query))
    }

    function SearchCategories(query: string, page: int, limit: int): (r: PagedList<Category>)
      reads db
      requires db.Valid()
      requires page >= 1 && limit >= 1
      ensures r.total == |SearchResults(query)|
      ensures |r.items| <= limit
      ensures IsCategoryPage(r.items, SearchResults(query), page, limit)
      ensures forall c :: c in r.items ==>
        CategoryMatches(c, query) && db.IsLiveCategory(c.id) && c == db.CategoryWithBooks(db.categories[c.id])
    {
      var rows := SearchResults(query);
      var r := PagedCategories(rows, page, limit);
      r
    }

    lemma SearchEmptyIsGetAll(page: int, limit: int)
      requires db.Valid()
      requires page >= 1 && limit >= 1
      ensures SearchCategories("", page, limit) == GetAllCategories(page, limit)
    {
      forall c | c in db.LiveCategories() ensures CategoryMatches(c, "") {
        EmptyQueryMatches(c.name);
      }
      FilterAll(db.LiveCategories(), (c: Category) => CategoryMatches(c, ""));
    }

    /** When UpdateCategory succeeds: the category is live and its new name
        belongs to no other row. */
    predicate UpdateSucceeds(id: Id, updates: Category)
      reads db
    {
      db.IsLiveCategory(id) && !db.NameTaken(ApplyCategoryUpdates(db.categories[id], updates).name, id)
    }

    method UpdateCategory(id: Id, updates: Category) returns (r: Option<ServiceError>)
      requires db.Valid()
      modifies db
      ensures db.Valid()
      ensures r.None? <==> old(UpdateSucceeds(id, updates))
      ensures !old(db.IsLiveCategory(id)) ==> r == Some(NotFound("category")) && db.State() == old(db.State())
      ensures old(db.IsLiveCategory(id)) ==>
        var row := ApplyCategoryUpdates(old(db.categories[id]), updates);
        if old(db.NameTaken(row.name, id)) then
          r == Some(Failed("update category", UniqueViolation(CategoriesNameIndex))) && db.State() == old(db.State())
        else
          (r == None && db.State() == old(db.State()).(categories := old(db.categories)[id := row]))
    {
      var result := db.UpdateCategory(id, updates);
      match result
      case Err(e) =>
        r := Some(Failed("update category", e));
      case Ok(affected) =>
        r := if affected == 0 then Some(NotFound("category")) else None;
    }

    method DeleteCategory(id: Id) returns (r: Option<ServiceError>)
      requires db.Valid()
      modifies db
      ensures db.Valid()
      ensures r.None? <==> old(db.IsLiveCategory(id))
      ensures r.Some? ==> r.value == NotFound("category") && db.State() == old(db.State())
      ensures r.None? ==> db.State() == old(db.State()).(categories := old(db.categories)[id := old(db.categories[id]).(deleted := true)])
    {
      var affected := db.DeleteCategory(id);
      r := if affected == 0 then Some(NotFound("category")) else None;
    }
  }
}
