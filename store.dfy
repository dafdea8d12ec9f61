/** The PostgreSQL tables behind gorm, as far as the services rely on them:
    three tables keyed by id, soft deletion (`deleted_at`), the unique indexes
    on author email, category name and book ISBN, the foreign keys from books
    to authors and categories, and gorm's `Create`, `Updates`, `Update` and
    `Delete` calls. Queries see only rows that are not soft-deleted; the unique
    indexes, the primary keys and the foreign keys see every row. */
module Store {
  import opened Common
  import opened Models

  /** The constraint violations PostgreSQL reports to the services. */
  datatype DbError =
    | UniqueViolation(constraint: string)
    | ForeignKeyViolation(constraint: string)

  const AuthorsPkey: string := "authors_pkey"
  const AuthorsEmailIndex: string := "uni_authors_email"
  const CategoriesPkey: string := "categories_pkey"
  const CategoriesNameIndex: string := "idx_categories_name"
  const BooksPkey: string := "books_pkey"
  const BooksIsbnIndex: string := "idx_books_isbn"
  const BooksAuthorFk: string := "fk_books_author"
  const BooksCategoryFk: string := "fk_books_category"

  /** The driver's error text for a violation. */
  function DbErrorText(e: DbError): (t: string)
    ensures |t| > 0
  {
    match e
    case UniqueViolation(c) =>
      "ERROR: duplicate key value violates unique constraint \"" + c + "\" (SQLSTATE 23505)"
    case ForeignKeyViolation(c) =>
      "ERROR: insert or update on table \"books\" violates foreign key constraint \"" + c + "\" (SQLSTATE 23503)"
  }

  /** `order` lists every key of `m` exactly once. */
  predicate Enumerates<T>(order: seq<Id>, m: map<Id, T>) {
    (forall i, j :: 0 <= i < j < |order| ==> order[i] != order[j]) &&
    (forall i :: 0 <= i < |order| ==> order[i] in m) &&
    (forall k :: k in m ==> k in order)
  }

  /** The rows of a table in the order `order` lists them. */
  function Rows<T>(order: seq<Id>, m: map<Id, T>): (r: seq<T>)
    requires forall i :: 0 <= i < |order| ==> order[i] in m
    ensures |r| == |order|
    ensures forall i :: 0 <= i < |order| ==> r[i] == m[order[i]]
  {
    seq(|order|, i requires 0 <= i < |order| => m[order[i]])
  }

  /** A `WHERE` clause: every row that satisfies `keep`, as often as it
      occurs in `rows`, and no other. */
  function Filter<T(!new)>(rows: seq<T>, keep: T -> bool): (r: seq<T>)
    ensures |r| <= |rows|
    ensures forall x :: x in r <==> x in rows && keep(x)
    ensures forall x :: multiset(r)[x] == if keep(x) then multiset(rows)[x] else 0
  {
    if rows == [] then []
    else
      var rest := Filter(rows[1..], keep);
      assert rows == [rows[0]] + rows[1..];
      assert multiset(rows) == multiset{rows[0]} + multiset(rows[1..]);
      if keep(rows[0]) then [rows[0]] + rest else rest
  }

  /** A filter that every row passes keeps every row. */
  lemma {:induction false} FilterAll<T(!new)>(rows: seq<T>, keep: T -> bool)
    requires forall x :: x in rows ==> keep(x)
    ensures Filter(rows, keep) == rows
  {
    if rows != [] {
      FilterAll(rows[1..], keep);
      assert [rows[0]] + rows[1..] == rows;
    }
  }

  /** No two of `rows` have the same key. */
  predicate DistinctKeys<T>(rows: seq<T>, key: T -> Id) {
    forall i, j :: 0 <= i < j < |rows| ==> key(rows[i]) != key(rows[j])
  }

  /** A filter drops rows but never repeats one, so keys stay distinct. */
  lemma {:induction false} FilterKeepsKeysDistinct<T(!new)>(rows: seq<T>, keep: T -> bool, key: T -> Id)
    requires DistinctKeys(rows, key)
    ensures DistinctKeys(Filter(rows, keep), key)
  {
    if rows != [] {
      var rest := Filter(rows[1..], keep);
      FilterKeepsKeysDistinct(rows[1..], keep, key);
      if keep(rows[0]) {
        var r := [rows[0]] + rest;
        assert Filter(rows, keep) == r;
        HeadKeyUnique(rows, rest, key);
        forall i, j | 0 <= i < j < |r| ensures key(r[i]) != key(r[j]) {
          assert r[j] == rest[j - 1];
          if i > 0 {
            assert r[i] == rest[i - 1];
          }
        }
      } else {
        assert Filter(rows, keep) == rest;
      }
    }
  }

  lemma HeadKeyUnique<T>(rows: seq<T>, rest: seq<T>, key: T -> Id)
    requires rows != [] && DistinctKeys(rows, key)
    requires forall x :: x in rest ==> x in rows[1..]
    ensures forall x :: x in rest ==> key(x) != key(rows[0])
  {
    forall x | x in rest ensures key(x) != key(rows[0]) {
      var k :| 0 <= k < |rows[1..]| && rows[1..][k] == x;
      assert rows[k + 1] == x;
    }
  }

  /** `First`: the first row satisfying `keep`, if there is one. */
  function FirstWhere<T(!new)>(rows: seq<T>, keep: T -> bool): (r: Option<T>)
    ensures r.Some? ==> r.value in rows && keep(r.value)
    ensures r.None? <==> forall x :: x in rows ==> !keep(x)
  {
    if rows == [] then None
    else if keep(rows[0]) then Some(rows[0])
    else FirstWhere(rows[1..], keep)
  }

  /** gorm's `Updates` with a struct writes only the fields that are not
      their type's zero value; the others keep the stored value. */
  function ApplyBookUpdates(cur: Book, upd: Book): (r: Book)
    ensures r.id == cur.id && r.deleted == cur.deleted
    ensures r.author == cur.author && r.category == cur.category
    ensures r.createdAt == cur.createdAt && r.updatedAt == cur.updatedAt
  {
    cur.(title := if upd.title != "" then upd.title else cur.title,
         isbn := if upd.isbn != "" then upd.isbn else cur.isbn,
         description := if upd.description != "" then upd.description else cur.description,
         price := if upd.price != ZeroPrice then upd.price else cur.price,
         stock := if upd.stock != 0 then upd.stock else cur.stock,
         publishedAt := if upd.publishedAt.Some? then upd.publishedAt else cur.publishedAt,
         authorId := if upd.authorId != Nil then upd.authorId else cur.authorId,
         categoryId := if upd.categoryId != Nil then upd.categoryId else cur.categoryId)
  }

  /** An update whose fields are all zero writes nothing. */
  lemma ZeroBookUpdateKeepsRow(cur: Book)
    ensures ApplyBookUpdates(cur, NewBook("", "", "", ZeroPrice, 0, None, Nil, Nil)) == cur
  {
  }

  function ApplyAuthorUpdates(cur: Author, upd: Author): (r: Author)
    ensures r.id == cur.id && r.deleted == cur.deleted && r.books == cur.books
    ensures r.createdAt == cur.createdAt && r.updatedAt == cur.updatedAt
  {
    cur.(name := if upd.name != "" then upd.name else cur.name,
         email := if upd.email != "" then upd.email else cur.email,
         biography := if upd.biography != "" then upd.biography else cur.biography)
  }

  function ApplyCategoryUpdates(cur: Category, upd: Category): (r: Category)
    ensures r.id == cur.id && r.deleted == cur.deleted && r.books == cur.books
    ensures r.createdAt == cur.createdAt && r.updatedAt == cur.updatedAt
  {
    cur.(name := if upd.name != "" then upd.name else cur.name,
         description := if upd.description != "" then upd.description else cur.description)
  }

  /** The columns of a book; relationships are not stored in the row. */
  function BookColumns(b: Book): Book {
    b.(author := NoAuthor, category := NoCategory)
  }

  function AuthorColumns(a: Author): Author {
    a.(books := [])
  }

  function CategoryColumns(c: Category): Category {
    c.(books := [])
  }

  predicate AuthorTable(order: seq<Id>, m: map<Id, Author>) {
    Enumerates(order, m) && Nil !in m && (forall k :: k in m ==> m[k].id == k) && UniqueEmails(m)
  }

  predicate CategoryTable(order: seq<Id>, m: map<Id, Category>) {
    Enumerates(order, m) && Nil !in m && (forall k :: k in m ==> m[k].id == k) && UniqueNames(m)
  }

  predicate BookTable(order: seq<Id>, m: map<Id, Book>) {
    Enumerates(order, m) && Nil !in m && (forall k :: k in m ==> m[k].id == k) && UniqueIsbns(m)
  }

  /** The foreign keys: every book row refers to existing author and category
      rows (a soft-deleted row still satisfies the constraint). */
  predicate BooksReferTo(books: map<Id, Book>, authors: map<Id, Author>, categories: map<Id, Category>) {
    forall k :: k in books ==> books[k].authorId in authors && books[k].categoryId in categories
  }

  /** Overwriting one stored book with a row that keeps its id, clashes
      with no other ISBN and refers to existing rows keeps the tables valid. */
  lemma BookRowReplaced(order: seq<Id>, books: map<Id, Book>, authors: map<Id, Author>,
                        categories: map<Id, Category>, id: Id, row: Book)
    requires BookTable(order, books) && BooksReferTo(books, authors, categories)
    requires id in books && row.id == id
    requires forall k :: k in books && k != id ==> books[k].isbn != row.isbn
    requires row.authorId in authors && row.categoryId in categories
    ensures BookTable(order, books[id := row]) && BooksReferTo(books[id := row], authors, categories)
  {
    var m := books[id := row];
    assert m.Keys == books.Keys;
    assert Enumerates(order, m);
    forall j, k | j in m && k in m && m[j].isbn == m[k].isbn ensures j == k {
    }
  }

  /** A snapshot of every table, used to say which of them an operation changed. */
  datatype Tables = Tables(
    authors: map<Id, Author>,
    categories: map<Id, Category>,
    books: map<Id, Book>,
    authorOrder: seq<Id>,
    categoryOrder: seq<Id>,
    bookOrder: seq<Id>)

  class Database {
    var authors: map<Id, Author>
    var categories: map<Id, Category>
    var books: map<Id, Book>
    /** The order in which a query without ORDER BY returns the rows. */
    var authorOrder: seq<Id>
    var categoryOrder: seq<Id>
    var bookOrder: seq<Id>

    ghost predicate Valid()
      reads this
    {
      AuthorTable(authorOrder, authors) &&
      CategoryTable(categoryOrder, categories) &&
      BookTable(bookOrder, books) &&
      BooksReferTo(books, authors, categories)
    }

    function State(): Tables
      reads this
    {
      Tables(authors, categories, books, authorOrder, categoryOrder, bookOrder)
    }

    constructor ()
      ensures Valid()
      ensures authors == map[] && categories == map[] && books == map[]
      ensures authorOrder == [] && categoryOrder == [] && bookOrder == []
    {
      authors, categories, books := map[], map[], map[];
      authorOrder, categoryOrder, bookOrder := [], [], [];
    }

    // ---- Reads (soft-deleted rows are invisible) ----

    predicate IsLiveAuthor(id: Id)
      reads this
    {
      id in authors && !authors[id].deleted
    }

    predicate IsLiveCategory(id: Id)
      reads this
    {
      id in categories && !categories[id].deleted
    }

    predicate IsLiveBook(id: Id)
      reads this
    {
      id in books && !books[id].deleted
    }

    function LiveAuthors(): (r: seq<Author>)
      reads this
      requires Valid()
      ensures forall a :: a in r <==> a.id in authors && authors[a.id] == a && !a.deleted
      ensures forall i, j :: 0 <= i < j < |r| ==> r[i].id != r[j].id
    {
      FilterKeepsKeysDistinct(Rows(authorOrder, authors), (a: Author) => !a.deleted, (a: Author) => a.id);
      Filter(Rows(authorOrder, authors), (a: Author) => !a.deleted)
    }

    function LiveCategories(): (r: seq<Category>)
      reads this
      requires Valid()
      ensures forall c :: c in r <==> c.id in categories && categories[c.id] == c && !c.deleted
      ensures forall i, j :: 0 <= i < j < |r| ==> r[i].id != r[j].id
    {
      FilterKeepsKeysDistinct(Rows(categoryOrder, categories), (c: Category) => !c.deleted, (c: Category) => c.id);
      Filter(Rows(categoryOrder, categories), (c: Category) => !c.deleted)
    }

    function LiveBooks(): (r: seq<Book>)
      reads this
      requires Valid()
      ensures forall b :: b in r <==> b.id in books && books[b.id] == b && !b.deleted
      ensures forall i, j :: 0 <= i < j < |r| ==> r[i].id != r[j].id
    {
      var rows := Rows(bookOrder, books);
      assert forall b :: b in rows <==> b.id in books && books[b.id] == b by {
        forall b: Book | b.id in books && books[b.id] == b ensures b in rows {
          var i :| 0 <= i < |bookOrder| && bookOrder[i] == b.id;
          assert rows[i] == b;
        }
      }
      FilterKeepsKeysDistinct(rows, (b: Book) => !b.deleted, (b: Book) => b.id);
      Filter(rows, (b: Book) => !b.deleted)
    }

    /** `First(&x, "id = ?", id)`. */
    function FindAuthor(id: Id): (r: Option<Author>)
      reads this
      ensures r.Some? <==> IsLiveAuthor(id)
      ensures r.Some? ==> r.value == authors[id]
    {
      if IsLiveAuthor(id) then Some(authors[id]) else None
    }

    function FindCategory(id: Id): (r: Option<Category>)
      reads this
      ensures r.Some? <==> IsLiveCategory(id)
      ensures r.Some? ==> r.value == categories[id]
    {
      if IsLiveCategory(id) then Some(categories[id]) else None
    }

    function FindBook(id: Id): (r: Option<Book>)
      reads this
      ensures r.Some? <==> IsLiveBook(id)
      ensures r.Some? ==> r.value == books[id]
    {
      if IsLiveBook(id) then Some(books[id]) else None
    }

    /** `Preload("Author").Preload("Category")`: the book's live author and
        category, or the zero value where the referenced row is deleted. */
    function WithRelations(b: Book): (r: Book)
      reads this
      ensures r == b.(author := r.author, category := r.category)
      ensures IsLiveAuthor(b.authorId) ==> r.author == authors[b.authorId]
      ensures !IsLiveAuthor(b.authorId) ==> r.author == NoAuthor
      ensures IsLiveCategory(b.categoryId) ==> r.category == categories[b.categoryId]
      ensures !IsLiveCategory(b.categoryId) ==> r.category == NoCategory
    {
      b.(author := if IsLiveAuthor(b.authorId) then authors[b.authorId] else NoAuthor,
         category := if IsLiveCategory(b.categoryId) then categories[b.categoryId] else NoCategory)
    }

    function PreloadBooks(rows: seq<Book>): (r: seq<Book>)
      reads this
      ensures |r| == |rows|
      ensures forall i :: 0 <= i < |rows| ==> r[i] == WithRelations(rows[i])
    {
      if rows == [] then [] else [WithRelations(rows[0])] + PreloadBooks(rows[1..])
    }

    /** The live books whose author is `id`. */
    function BooksOfAuthor(id: Id): (r: seq<Book>)
      reads this
      requires Valid()
      ensures forall b :: b in r <==> b in LiveBooks() && b.authorId == id
      ensures forall i, j :: 0 <= i < j < |r| ==> r[i].id != r[j].id
    {
      FilterKeepsKeysDistinct(LiveBooks(), (b: Book) => b.authorId == id, (b: Book) => b.id);
      Filter(LiveBooks(), (b: Book) => b.authorId == id)
    }

    function BooksOfCategory(id: Id): (r: seq<Book>)
      reads this
      requires Valid()
      ensures forall b :: b in r <==> b in LiveBooks() && b.categoryId == id
      ensures forall i, j :: 0 <= i < j < |r| ==> r[i].id != r[j].id
    {
      FilterKeepsKeysDistinct(LiveBooks(), (b: Book) => b.categoryId == id, (b: Book) => b.id);
      Filter(LiveBooks(), (b: Book) => b.categoryId == id)
    }

    /** `Preload("Books")` on an author or a category. */
    function AuthorWithBooks(a: Author): (r: Author)
      reads this
      requires Valid()
      ensures r == a.(books := r.books)
      ensures forall b :: b in r.books <==> b in LiveBooks() && b.authorId == a.id
    {
      a.(books := BooksOfAuthor(a.id))
    }

    function CategoryWithBooks(c: Category): (r: Category)
      reads this
      requires Valid()
      ensures r == c.(books := r.books)
      ensures forall b :: b in r.books <==> b in LiveBooks() && b.categoryId == c.id
    {
      c.(books := BooksOfCategory(c.id))
    }

    function PreloadAuthors(rows: seq<Author>): (r: seq<Author>)
      reads this
      requires Valid()
      ensures |r| == |rows|
      ensures forall i :: 0 <= i < |rows| ==> r[i] == AuthorWithBooks(rows[i])
    {
      if rows == [] then [] else [AuthorWithBooks(rows[0])] + PreloadAuthors(rows[1..])
    }

    function PreloadCategories(rows: seq<Category>): (r: seq<Category>)
      reads this
      requires Valid()
      ensures |r| == |rows|
      ensures forall i :: 0 <= i < |rows| ==> r[i] == CategoryWithBooks(rows[i])
    {
      if rows == [] then [] else [CategoryWithBooks(rows[0])] + PreloadCategories(rows[1..])
    }

    // ---- Constraint checks ----

    predicate EmailTaken(email: string, except: Id)
      reads this
    {
      exists k | k in authors :: k != except && authors[k].email == email
    }

    predicate NameTaken(name: string, except: Id)
      reads this
    {
      exists k | k in categories :: k != except && categories[k].name == name
    }

    predicate IsbnTaken(isbn: string, except: Id)
      reads this
    {
      exists k | k in books :: k != except && books[k].isbn == isbn
    }

    /** The error PostgreSQL raises when `row` is inserted: the primary key is
        checked first, then the unique index. */
    function AuthorInsertError(row: Author): (r: Option<DbError>)
      reads this
      ensures r.None? <==> row.id !in authors && !EmailTaken(row.email, row.id)
    {
      if row.id in authors then Some(UniqueViolation(AuthorsPkey))
      else if EmailTaken(row.email, row.id) then Some(UniqueViolation(AuthorsEmailIndex))
      else None
    }

    function CategoryInsertError(row: Category): (r: Option<DbError>)
      reads this
      ensures r.None? <==> row.id !in categories && !NameTaken(row.name, row.id)
    {
      if row.id in categories then Some(UniqueViolation(CategoriesPkey))
      else if NameTaken(row.name, row.id) then Some(UniqueViolation(CategoriesNameIndex))
      else None
    }

    /** For a book the foreign keys are checked after the unique indexes. */
    function BookInsertError(row: Book): (r: Option<DbError>)
      reads this
      ensures r.None? <==> (row.id !in books && !IsbnTaken(row.isbn, row.id)
                            && row.authorId in authors && row.categoryId in categories)
    {
      if row.id in books then Some(UniqueViolation(BooksPkey))
      else if IsbnTaken(row.isbn, row.id) then Some(UniqueViolation(BooksIsbnIndex))
      else if row.authorId !in authors then Some(ForeignKeyViolation(BooksAuthorFk))
      else if row.categoryId !in categories then Some(ForeignKeyViolation(BooksCategoryFk))
      else None
    }

    /** The error an UPDATE that writes `row` over the stored row raises. */
    function BookUpdateError(row: Book): (r: Option<DbError>)
      reads this
      ensures r.None? <==> !IsbnTaken(row.isbn, row.id) && row.authorId in authors && row.categoryId in categories
    {
      if IsbnTaken(row.isbn, row.id) then Some(UniqueViolation(BooksIsbnIndex))
      else if row.authorId !in authors then Some(ForeignKeyViolation(BooksAuthorFk))
      else if row.categoryId !in categories then Some(ForeignKeyViolation(BooksCategoryFk))
      else None
    }

    // ---- Writes ----

    /** `db.Create(&author)`: runs BeforeCreate, then inserts the row. */
    method CreateAuthor(a: Author, seed: nat) returns (r: Result<Author, DbError>)
      requires Valid()
      modifies this
      ensures Valid()
      ensures var row := a.(id := AssignedId(a.id, seed));
        match old(AuthorInsertError(row))
        case Some(e) => r == Err(e) && unchanged(this)
        case None =>
          && r == Ok(row)
          && authors == old(authors)[row.id := AuthorColumns(row)]
          && authorOrder == old(authorOrder) + [row.id]
          && categories == old(categories) && categoryOrder == old(categoryOrder)
          && books == old(books) && bookOrder == old(bookOrder)
    {
      var row, _ := a.BeforeCreate(seed);
      var e := AuthorInsertError(row);
      if e.Some? {
        return Err(e.value);
      }
      authors := authors[row.id := AuthorColumns(row)];
      authorOrder := authorOrder + [row.id];
      r := Ok(row);
    }

    method CreateCategory(c: Category, seed: nat) returns (r: Result<Category, DbError>)
      requires Valid()
      modifies this
      ensures Valid()
      ensures var row := c.(id := AssignedId(c.id, seed));
        match old(CategoryInsertError(row))
        case Some(e) => r == Err(e) && unchanged(this)
        case None =>
          && r == Ok(row)
          && categories == old(categories)[row.id := CategoryColumns(row)]
          && categoryOrder == old(categoryOrder) + [row.id]
          && authors == old(authors) && authorOrder == old(authorOrder)
          && books == old(books) && bookOrder == old(bookOrder)
    {
      var row, _ := c.BeforeCreate(seed);
      var e := CategoryInsertError(row);
      if e.Some? {
        return Err(e.value);
      }
      categories := categories[row.id := CategoryColumns(row)];
      categoryOrder := categoryOrder + [row.id];
      r := Ok(row);
    }

    method CreateBook(b: Book, seed: nat) returns (r: Result<Book, DbError>)
      requires Valid()
      modifies this
      ensures Valid()
      ensures var row := b.(id := AssignedId(b.id, seed));
        match old(BookInsertError(row))
        case Some(e) => r == Err(e) && unchanged(this)
        case None =>
          && r == Ok(row)
          && books == old(books)[row.id := BookColumns(row)]
          && bookOrder == old(bookOrder) + [row.id]
          && authors == old(authors) && authorOrder == old(authorOrder)
          && categories == old(categories) && categoryOrder == old(categoryOrder)
    {
      var row, _ := b.BeforeCreate(seed);
      var e := BookInsertError(row);
      if e.Some? {
        return Err(e.value);
      }
      books := books[row.id := BookColumns(row)];
      bookOrder := bookOrder + [row.id];
      r := Ok(row);
    }

    /** `Model(&Author{}).Where("id = ?", id).Updates(&upd)`: the number of
        rows affected, which is 0 when no live row has that id. */
    method UpdateAuthor(id: Id, upd: Author) returns (r: Result<nat, DbError>)
      requires Valid()
      modifies this
      ensures Valid()
      ensures !old(IsLiveAuthor(id)) ==> r == Ok(0) && unchanged(this)
      ensures old(IsLiveAuthor(id)) ==>
        var row := ApplyAuthorUpdates(old(authors[id]), upd);
        if old(EmailTaken(row.email, id)) then r == Err(UniqueViolation(AuthorsEmailIndex)) && unchanged(this)
        else (r == Ok(1) && authors == old(authors)[id := row]
              && authorOrder == old(authorOrder) && categories == old(categories) && categoryOrder == old(categoryOrder)
              && books == old(books) && bookOrder == old(bookOrder))
    {
      if !IsLiveAuthor(id) {
        return Ok(0);
      }
      var row := ApplyAuthorUpdates(authors[id], upd);
      if EmailTaken(row.email, id) {
        return Err(UniqueViolation(AuthorsEmailIndex));
      }
      authors := authors[id := row];
      r := Ok(1);
    }

    method UpdateCategory(id: Id, upd: Category) returns (r: Result<nat, DbError>)
      requires Valid()
      modifies this
      ensures Valid()
      ensures !old(IsLiveCategory(id)) ==> r == Ok(0) && unchanged(this)
      ensures old(IsLiveCategory(id)) ==>
        var row := ApplyCategoryUpdates(old(categories[id]), upd);
        if old(NameTaken(row.name, id)) then r == Err(UniqueViolation(CategoriesNameIndex)) && unchanged(this)
        else (r == Ok(1) && categories == old(categories)[id := row]
              && categoryOrder == old(categoryOrder) && authors == old(authors) && authorOrder == old(authorOrder)
              && books == old(books) && bookOrder == old(bookOrder))
    {
      if !IsLiveCategory(id) {
        return Ok(0);
      }
      var row := ApplyCategoryUpdates(categories[id], upd);
      if NameTaken(row.name, id) {
        return Err(UniqueViolation(CategoriesNameIndex));
      }
      categories := categories[id := row];
      r := Ok(1);
    }

    method UpdateBook(id: Id, upd: Book) returns (r: Result<nat, DbError>)
      requires Valid()
      modifies this
      ensures Valid()
      ensures !old(IsLiveBook(id)) ==> r == Ok(0) && unchanged(this)
      ensures old(IsLiveBook(id)) ==>
        var row := ApplyBookUpdates(old(books[id]), upd);
        match old(BookUpdateError(row))
        case Some(e) => r == Err(e) && unchanged(this)
        case None =>
          && r == Ok(1) && books == old(books)[id := row]
          && bookOrder == old(bookOrder) && authors == old(authors) && authorOrder == old(authorOrder)
          && categories == old(categories) && categoryOrder == old(categoryOrder)
    {
      if !IsLiveBook(id) {
        return Ok(0);
      }
      var row := ApplyBookUpdates(books[id], upd);
      var e := BookUpdateError(row);
      if e.Some? {
        return Err(e.value);
      }
      BookRowReplaced(bookOrder, books, authors, categories, id, row);
      books := books[id := row];
      r := Ok(1);
    }

    /** `Model(&Book{}).Where("id = ?", id).Update("stock", n)`: writes the
        column whatever its value, zero included. */
    method SetBookStock(id: Id, stock: int) returns (affected: nat)
      requires Valid()
      modifies this
      ensures Valid()
      ensures affected == (if old(IsLiveBook(id)) then 1 else 0)
      ensures old(IsLiveBook(id)) ==> books == old(books)[id := old(books[id]).(stock := stock)]
      ensures !old(IsLiveBook(id)) ==> books == old(books)
      ensures bookOrder == old(bookOrder) && authors == old(authors) && authorOrder == old(authorOrder)
      ensures categories == old(categories) && categoryOrder == old(categoryOrder)
    {
      if !IsLiveBook(id) {
        return 0;
      }
      BookRowReplaced(bookOrder, books, authors, categories, id, books[id].(stock := stock));
      books := books[id := books[id].(stock := stock)];
      affected := 1;
    }

    /** `Delete(&Author{}, "id = ?", id)`: a soft delete, which marks the row
        and affects it only if it was live. */
    method DeleteAuthor(id: Id) returns (affected: nat)
      requires Valid()
      modifies this
      ensures Valid()
      ensures affected == (if old(IsLiveAuthor(id)) then 1 else 0)
      ensures old(IsLiveAuthor(id)) ==> authors == old(authors)[id := old(authors[id]).(deleted := true)]
      ensures !old(IsLiveAuthor(id)) ==> authors == old(authors)
      ensures authorOrder == old(authorOrder) && categories == old(categories) && categoryOrder == old(categoryOrder)
      ensures books == old(books) && bookOrder == old(bookOrder)
    {
      if !IsLiveAuthor(id) {
        return 0;
      }
      authors := authors[id := authors[id].(deleted := true)];
      affected := 1;
    }

    method DeleteCategory(id: Id) returns (affected: nat)
      requires Valid()
      modifies this
      ensures Valid()
      ensures affected == (if old(IsLiveCategory(id)) then 1 else 0)
      ensures old(IsLiveCategory(id)) ==> categories == old(categories)[id := old(categories[id]).(deleted := true)]
      ensures !old(IsLiveCategory(id)) ==> categories == old(categories)
      ensures categoryOrder == old(categoryOrder) && authors == old(authors) && authorOrder == old(authorOrder)
      ensures books == old(books) && bookOrder == old(bookOrder)
    {
      if !IsLiveCategory(id) {
        return 0;
      }
      categories := categories[id := categories[id].(deleted := true)];
      affected := 1;
    }

    method DeleteBook(id: Id) returns (affected: nat)
      requires Valid()
      modifies this
      ensures Valid()
      ensures affected == (if old(IsLiveBook(id)) then 1 else 0)
      ensures old(IsLiveBook(id)) ==> books == old(books)[id := old(books[id]).(deleted := true)]
      ensures !old(IsLiveBook(id)) ==> books == old(books)
      ensures bookOrder == old(bookOrder) && authors == old(authors) && authorOrder == old(authorOrder)
      ensures categories == old(categories) && categoryOrder == old(categoryOrder)
    {
      if !IsLiveBook(id) {
        return 0;
      }
      BookRowReplaced(bookOrder, books, authors, categories, id, books[id].(deleted := true));
      books := books[id := books[id].(deleted := true)];
      affected := 1;
    }
  }
}
