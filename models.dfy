/** The three persistent records of the catalogue and their gorm hooks.
    A record is a value; the `deleted` flag stands for gorm's soft-delete
    column `deleted_at` being set. Relationship fields (`Book.author`,
    `Book.category`, `Author.books`, `Category.books`) are only filled when a
    query preloads them, and otherwise hold the zero value. */
module Models {
  import opened Common

  const ZeroTime: Timestamp := Timestamp(0)

  datatype Author = Author(
    id: Id,
    name: string,
    email: string,
    biography: string,
    createdAt: Timestamp,
    updatedAt: Timestamp,
    deleted: bool,
    books: seq<Book>)
  {
    /** The table the records are stored in. */
    static function TableName(): string {
      "authors"
    }

    /** gorm's BeforeCreate hook: give the record a fresh id unless it
        already has one; never fails. */
    method BeforeCreate(seed: nat) returns (a: Author, err: Option<string>)
      ensures err == None
      ensures a.id != Nil
      ensures id != Nil ==> a.id == id
      ensures id == Nil ==> a.id == NewUuid(seed)
      ensures a == this.(id := a.id)
    {
      a := this;
      if id == Nil {
        a := a.(id := NewUuid(seed));
      }
      err := None;
    }
  }

  datatype Category = Category(
    id: Id,
    name: string,
    description: string,
    createdAt: Timestamp,
    updatedAt: Timestamp,
    deleted: bool,
    books: seq<Book>)
  {
    static function TableName(): string {
      "categories"
    }

    method BeforeCreate(seed: nat) returns (c: Category, err: Option<string>)
      ensures err == None
      ensures c.id != Nil
      ensures id != Nil ==> c.id == id
      ensures id == Nil ==> c.id == NewUuid(seed)
      ensures c == this.(id := c.id)
    {
      c := this;
      if id == Nil {
        c := c.(id := NewUuid(seed));
      }
      err := None;
    }
  }

  datatype Book = Book(
    id: Id,
    title: string,
    isbn: string,
    description: string,
    price: Price,
    stock: int,
    publishedAt: Option<Timestamp>,
    createdAt: Timestamp,
    updatedAt: Timestamp,
    deleted: bool,
    authorId: Id,
    categoryId: Id,
    author: Author,
    category: Category)
  {
    static function TableName(): string {
      "books"
    }

    method BeforeCreate(seed: nat) returns (b: Book, err: Option<string>)
      ensures err == None
      ensures b.id != Nil
      ensures id != Nil ==> b.id == id
      ensures id == Nil ==> b.id == NewUuid(seed)
      ensures b == this.(id := b.id)
    {
      b := this;
      if id == Nil {
        b := b.(id := NewUuid(seed));
      }
      err := None;
    }
  }

  /** The id a record carries after BeforeCreate. */
  function AssignedId(id: Id, seed: nat): Id {
    if id == Nil then NewUuid(seed) else id
  }

  /** The zero values a relationship field holds when it was not preloaded. */
  const NoAuthor: Author := Author(Nil, "", "", "", ZeroTime, ZeroTime, false, [])
  const NoCategory: Category := Category(Nil, "", "", ZeroTime, ZeroTime, false, [])

  /** A book as a handler builds it from a request: no id, no timestamps,
      no relationships loaded. */
  function NewBook(title: string, isbn: string, description: string, price: Price, stock: int,
                   publishedAt: Option<Timestamp>, authorId: Id, categoryId: Id): Book
  {
    Book(Nil, title, isbn, description, price, stock, publishedAt, ZeroTime, ZeroTime, false,
         authorId, categoryId, NoAuthor, NoCategory)
  }

  function NewAuthor(name: string, email: string, biography: string): Author {
    Author(Nil, name, email, biography, ZeroTime, ZeroTime, false, [])
  }

  function NewCategory(name: string, description: string): Category {
    Category(Nil, name, description, ZeroTime, ZeroTime, false, [])
  }

  /** The three tables have different names, so the records never share one. */
  lemma TableNamesDistinct()
    ensures Author.TableName() == "authors" && Category.TableName() == "categories" && Book.TableName() == "books"
    ensures Author.TableName() != Category.TableName() && Category.TableName() != Book.TableName()
    ensures Author.TableName() != Book.TableName()
  {
  }

  /** The unique index on `isbn`: no two stored books share an ISBN. */
  predicate UniqueIsbns(books: map<Id, Book>) {
    forall j, k :: j in books && k in books && books[j].isbn == books[k].isbn ==> j == k
  }

  /** The unique index `uni_authors_email`: no two stored authors share an email. */
  predicate UniqueEmails(authors: map<Id, Author>) {
    forall j, k :: j in authors && k in authors && authors[j].email == authors[k].email ==> j == k
  }

  /** The unique index on `name`: no two stored categories share a name. */
  predicate UniqueNames(categories: map<Id, Category>) {
    forall j, k :: j in categories && k in categories && categories[j].name == categories[k].name ==> j == k
  }
}
