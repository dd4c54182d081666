/** BookService (services/BookService.java): book lookups and book creation
    with an optional owner. */
module Books {
  import opened Wrappers
  import opened Entities
  import opened Store
  import Users

  /** findAll: every stored book, once each, in ascending book id. */
  function FindAll(db: Db): (r: seq<Book>)
    requires Consistent(db)
    ensures |r| == |db.books|
    ensures forall i | 0 <= i < |r| :: r[i].id in db.books && db.books[r[i].id] == r[i]
    ensures forall id | id in db.books :: db.books[id] in r
    ensures forall i, j | 0 <= i < j < |r| :: r[i].id < r[j].id
  {
    var ids := AllIds(db.books, db.nextBookId);
    var r := seq(|ids|, i requires 0 <= i < |ids| => db.books[ids[i]]);
    ListsEveryBook(db, ids, r);
    r
  }

  lemma ListsEveryBook(db: Db, ids: seq<int>, r: seq<Book>)
    requires Consistent(db) && ids == AllIds(db.books, db.nextBookId)
    requires r == seq(|ids|, i requires 0 <= i < |ids| => db.books[ids[i]])
    ensures forall i | 0 <= i < |r| :: r[i].id == ids[i]
    ensures forall id | id in db.books :: db.books[id] in r
  {
  }

  /** findById: the stored book, or null when no book has that id. */
  function FindById(db: Db, id: int): (r: Option<Book>)
    requires Consistent(db)
    ensures r.Some? <==> id in db.books
    ensures r.Some? ==> r.value == db.books[id] && r.value.id == id
  {
    if id in db.books then Some(db.books[id]) else None
  }

  /** createBook: a named owner must exist (UserNotFoundException otherwise,
      before anything is saved); the new book keeps the given title and author,
      has the given owner or none, and is saved under a fresh id unless the
      constraints reject it. The users table never changes. */
  function CreateBookStep(db: Db, title: string, author: string, userId: Option<int>): (s: Step<Book>)
    requires Consistent(db)
    ensures Consistent(s.db)
    ensures s.db.users == db.users
    ensures s.out.Err? ==> s.db == db
    ensures userId.Some? && userId.value !in db.users ==> s.out == Err(UserNotFound(userId.value))
    ensures (userId.None? || userId.value in db.users) && !(ValidTitle(title) && ValidAuthor(author)) ==>
      s.out == Err(ConstraintViolation)
    ensures s.out.Ok? <==> (userId.None? || userId.value in db.users) && ValidTitle(title) && ValidAuthor(author)
    ensures s.out.Ok? ==>
      var b := s.out.value;
      && b.id !in db.books
      && b.id == db.nextBookId && s.db.nextBookId == db.nextBookId + 1
      && b.title == title && b.author == author && b.owner == userId
      && s.db.books == db.books[b.id := b]
      && s.db.nextUserId == db.nextUserId
  {
    var book := Book(db.nextBookId, title, author, None);
    if userId.Some? && userId.value !in db.users then Step(db, Err(UserNotFound(userId.value)))
    else
      var book := if userId.Some? then book.(owner := Some(db.users[userId.value].id)) else book;
      if !ValidBook(book) then Step(db, Err(ConstraintViolation))
      else Step(db.(books := db.books[book.id := book], nextBookId := db.nextBookId + 1), Ok(book))
  }

  /** The service object: its repositories are the shared store. */
  class BookService {
    const store: Library

    constructor (store: Library)
      ensures this.store == store
    {
      this.store := store;
    }

    method CreateBook(title: string, author: string, userId: Option<int>) returns (r: Result<Book, Error>)
      requires store.Valid()
      modifies store
      ensures store.Valid()
      ensures Step(store.State(), r) == CreateBookStep(old(store.State()), title, author, userId)
    {
      var book := Book(store.nextBookId, title, author, None);
      if userId.Some? {
        if userId.value !in store.users {
          return Err(UserNotFound(userId.value));
        }
        var user := store.users[userId.value];
        book := book.(owner := Some(user.id));
      }
      if !ValidBook(book) {
        return Err(ConstraintViolation);
      }
      store.books := store.books[book.id := book];
      store.nextBookId := store.nextBookId + 1;
      r := Ok(book);
    }
  }

  /** A created book can be found under its id, and a created book with an
      owner shows up in that owner's transfer shape. */
  lemma CreatedBookFound(db: Db, title: string, author: string, userId: Option<int>)
    requires Consistent(db)
    requires CreateBookStep(db, title, author, userId).out.Ok?
    ensures var s := CreateBookStep(db, title, author, userId);
      && FindById(s.db, s.out.value.id) == Some(s.out.value)
      && |FindAll(s.db)| == |FindAll(db)| + 1
      && (userId.Some? ==>
            Users.BookDTO(s.out.value.id, title, author) in Users.FindById(s.db, userId.value).value.books)
  {
  }
}
