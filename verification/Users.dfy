/** UserService (services/UserService.java): user lookups and their transfer
    shapes, user create/update/delete, and attaching a book to a user or
    detaching it. */
module Users {
  import opened Wrappers
  import opened Entities
  import opened Store

  /** The reduced book shape inside a UserDTO: no owner back-reference. */
  datatype BookDTO = BookDTO(id: int, title: string, author: string)

  datatype UserDTO = UserDTO(id: int, name: string, email: string, books: seq<BookDTO>)

  /** toUserDTO: null stays null; otherwise id, name and email are kept and
      each book the user owns becomes one BookDTO, in ascending book id. */
  function ToUserDTO(db: Db, user: Option<User>): (r: Option<UserDTO>)
    requires Consistent(db)
    ensures r.None? <==> user.None?
    ensures user.Some? ==>
      var u, d := user.value, r.value;
      && d.id == u.id && d.name == u.name && d.email == u.email
      && |d.books| == |BooksOf(db, u.id)| == |OwnedKeys(db.books, u.id)|
      && (forall i | 0 <= i < |d.books| ::
            && d.books[i].id in db.books
            && db.books[d.books[i].id].owner == Some(u.id)
            && d.books[i].title == db.books[d.books[i].id].title
            && d.books[i].author == db.books[d.books[i].id].author)
      && (forall id | id in db.books && db.books[id].owner == Some(u.id) ::
            BookDTO(id, db.books[id].title, db.books[id].author) in d.books)
      && (forall i, j | 0 <= i < j < |d.books| :: d.books[i].id < d.books[j].id)
  {
    match user
    case None => None
    case Some(u) =>
      var owned := BooksOf(db, u.id);
      var dtos := seq(|owned|, i requires 0 <= i < |owned| => BookDTO(owned[i].id, owned[i].title, owned[i].author));
      ProjectionKeepsBooks(db, u.id, owned, dtos);
      Some(UserDTO(u.id, u.name, u.email, dtos))
  }

  lemma ProjectionKeepsBooks(db: Db, userId: int, owned: seq<Book>, dtos: seq<BookDTO>)
    requires Consistent(db) && owned == BooksOf(db, userId)
    requires dtos == seq(|owned|, i requires 0 <= i < |owned| => BookDTO(owned[i].id, owned[i].title, owned[i].author))
    ensures forall id | id in db.books && db.books[id].owner == Some(userId) ::
      BookDTO(id, db.books[id].title, db.books[id].author) in dtos
  {
    forall id | id in db.books && db.books[id].owner == Some(userId)
      ensures BookDTO(id, db.books[id].title, db.books[id].author) in dtos
    {
      var i :| 0 <= i < |owned| && owned[i] == db.books[id];
      assert dtos[i] == BookDTO(id, db.books[id].title, db.books[id].author);
    }
  }

  /** findById: the user's transfer shape, or null when no user has that id. */
  function FindById(db: Db, id: int): (r: Option<UserDTO>)
    requires Consistent(db)
    ensures r.Some? <==> id in db.users
    ensures r.Some? ==>
      && r == ToUserDTO(db, Some(db.users[id]))
      && r.value.id == id
      && r.value.name == db.users[id].name
      && r.value.email == db.users[id].email
  {
    if id in db.users then ToUserDTO(db, Some(db.users[id])) else None
  }

  /** findAll: one transfer shape per stored user, in ascending user id. */
  function FindAll(db: Db): (r: seq<UserDTO>)
    requires Consistent(db)
    ensures |r| == |db.users|
    ensures forall i | 0 <= i < |r| :: r[i].id in db.users && Some(r[i]) == ToUserDTO(db, Some(db.users[r[i].id]))
    ensures forall id | id in db.users :: ToUserDTO(db, Some(db.users[id])).value in r
    ensures forall i, j | 0 <= i < j < |r| :: r[i].id < r[j].id
  {
    var ids := AllIds(db.users, db.nextUserId);
    var r := seq(|ids|, i requires 0 <= i < |ids| => ToUserDTO(db, Some(db.users[ids[i]])).value);
    ListsEveryUser(db, ids, r);
    r
  }

  lemma ListsEveryUser(db: Db, ids: seq<int>, r: seq<UserDTO>)
    requires Consistent(db) && ids == AllIds(db.users, db.nextUserId)
    requires r == seq(|ids|, i requires 0 <= i < |ids| => ToUserDTO(db, Some(db.users[ids[i]])).value)
    ensures forall i | 0 <= i < |r| :: r[i].id == ids[i]
    ensures forall id | id in db.users :: ToUserDTO(db, Some(db.users[id])).value in r
  {
  }

  /** getUserById: the stored user, or UserNotFoundException. */
  function GetUser(db: Db, id: int): (r: Result<User, Error>)
    ensures r.Ok? <==> id in db.users
    ensures r.Ok? ==> r.value == db.users[id]
    ensures r.Err? ==> r.error == UserNotFound(id)
  {
    if id in db.users then Ok(db.users[id]) else Err(UserNotFound(id))
  }

  /** getBookById: the stored book, or BookNotFoundException. */
  function GetBook(db: Db, id: int): (r: Result<Book, Error>)
    ensures r.Ok? <==> id in db.books
    ensures r.Ok? ==> r.value == db.books[id]
    ensures r.Err? ==> r.error == BookNotFound(id)
  {
    if id in db.books then Ok(db.books[id]) else Err(BookNotFound(id))
  }

  /** createUser: saves one new user under a fresh id and returns its
      transfer shape, which lists no books; a name or email that breaks the
      constraints is rejected and nothing is saved. */
  function CreateUserStep(db: Db, name: string, email: string): (s: Step<UserDTO>)
    requires Consistent(db)
    ensures Consistent(s.db)
    ensures s.out.Ok? <==> ValidName(name) && ValidEmail(email)
    ensures s.out.Err? ==> s.out.error == ConstraintViolation && s.db == db
    ensures s.out.Ok? ==>
      var id := s.out.value.id;
      && id !in db.users
      && id == db.nextUserId && s.db.nextUserId == db.nextUserId + 1
      && s.out.value == UserDTO(id, name, email, [])
      && s.db.users == db.users[id := User(id, name, email)]
      && s.db.books == db.books
      && s.db.nextBookId == db.nextBookId
  {
    var user := User(db.nextUserId, name, email);
    if !ValidUser(user) then Step(db, Err(ConstraintViolation))
    else
      var saved := db.(users := db.users[user.id := user], nextUserId := db.nextUserId + 1);
      NoOwnedKeys(db, user.id);
      Step(saved, Ok(ToUserDTO(saved, Some(user)).value))
  }

  /** deleteUser: true and the row is gone when the id is stored, false and
      no change when it is not; a user who still owns books is refused by the
      books.user_id foreign key and nothing changes. */
  function DeleteUserStep(db: Db, id: int): (s: Step<bool>)
    requires Consistent(db)
    ensures Consistent(s.db)
    ensures s.out == Ok(false) <==> id !in db.users
    ensures s.out == Err(ForeignKeyViolation) <==> id in db.users && OwnedKeys(db.books, id) != {}
    ensures s.out == Ok(true) <==> id in db.users && OwnedKeys(db.books, id) == {}
    ensures s.out != Ok(true) ==> s.db == db
    ensures s.out == Ok(true) ==> s.db == db.(users := db.users - {id})
  {
    if id !in db.users then Step(db, Ok(false))
    else if OwnedKeys(db.books, id) != {} then Step(db, Err(ForeignKeyViolation))
    else
      NoOwnedKeys(db, id);
      Step(db.(users := db.users - {id}), Ok(true))
  }

  /** updateUser: true and only that user's name and email are overwritten
      when the id is stored, false and no change when it is not; new values
      that break the constraints are rejected at save and nothing changes. */
  function UpdateUserStep(db: Db, id: int, name: string, email: string): (s: Step<bool>)
    requires Consistent(db)
    ensures Consistent(s.db)
    ensures s.out == Ok(false) <==> id !in db.users
    ensures s.out == Err(ConstraintViolation) <==> id in db.users && !(ValidName(name) && ValidEmail(email))
    ensures s.out == Ok(true) <==> id in db.users && ValidName(name) && ValidEmail(email)
    ensures s.out != Ok(true) ==> s.db == db
    ensures s.out == Ok(true) ==>
      && s.db.users.Keys == db.users.Keys
      && s.db.users[id] == User(id, name, email)
      && (forall k | k in db.users && k != id :: s.db.users[k] == db.users[k])
      && s.db.books == db.books
      && s.db.nextUserId == db.nextUserId && s.db.nextBookId == db.nextBookId
  {
    if id !in db.users then Step(db, Ok(false))
    else
      var user := db.users[id].(name := name, email := email);
      if !ValidUser(user) then Step(db, Err(ConstraintViolation))
      else Step(db.(users := db.users[id := user]), Ok(true))
  }

  /** addBookToUser: an unknown user fails first, then an unknown book; on
      success the book's owner becomes the user, whatever it was before, and
      no other row changes. */
  function AddBookStep(db: Db, userId: int, bookId: int): (s: Step<bool>)
    requires Consistent(db)
    ensures Consistent(s.db)
    ensures userId !in db.users ==> s.out == Err(UserNotFound(userId))
    ensures userId in db.users && bookId !in db.books ==> s.out == Err(BookNotFound(bookId))
    ensures s.out.Ok? <==> userId in db.users && bookId in db.books
    ensures s.out.Ok? ==> s.out.value
    ensures s.out.Err? ==> s.db == db
    ensures s.out.Ok? ==>
      && s.db.books.Keys == db.books.Keys
      && s.db.books[bookId] == db.books[bookId].(owner := Some(userId))
      && (forall k | k in db.books && k != bookId :: s.db.books[k] == db.books[k])
      && s.db.users == db.users
      && s.db.nextUserId == db.nextUserId && s.db.nextBookId == db.nextBookId
  {
    match GetUser(db, userId)
    case Err(e) => Step(db, Err(e))
    case Ok(user) =>
      match GetBook(db, bookId)
      case Err(e) => Step(db, Err(e))
      case Ok(book) =>
        assert ValidBook(book);
        Step(db.(books := db.books[bookId := book.(owner := Some(user.id))]), Ok(true))
  }

  /** removeBookFromUser: an unknown user fails first, then an unknown book;
      an unowned book fails on the null owner and a book owned by someone else
      fails the ownership check, both leaving everything as it was; otherwise
      the owner is cleared and no other row changes. */
  function RemoveBookStep(db: Db, userId: int, bookId: int): (s: Step<bool>)
    requires Consistent(db)
    ensures Consistent(s.db)
    ensures userId !in db.users ==> s.out == Err(UserNotFound(userId))
    ensures userId in db.users && bookId !in db.books ==> s.out == Err(BookNotFound(bookId))
    ensures userId in db.users && bookId in db.books && db.books[bookId].owner == None ==>
      s.out == Err(NullOwner)
    ensures (userId in db.users && bookId in db.books && db.books[bookId].owner.Some? &&
             db.books[bookId].owner.value != userId) ==> s.out == Err(NotOwner)
    ensures s.out.Ok? <==> userId in db.users && bookId in db.books && db.books[bookId].owner == Some(userId)
    ensures s.out.Ok? ==> s.out.value
    ensures s.out.Err? ==> s.db == db
    ensures s.out.Ok? ==>
      && s.db.books.Keys == db.books.Keys
      && s.db.books[bookId] == db.books[bookId].(owner := None)
      && (forall k | k in db.books && k != bookId :: s.db.books[k] == db.books[k])
      && s.db.users == db.users
      && s.db.nextUserId == db.nextUserId && s.db.nextBookId == db.nextBookId
  {
    match GetUser(db, userId)
    case Err(e) => Step(db, Err(e))
    case Ok(user) =>
      match GetBook(db, bookId)
      case Err(e) => Step(db, Err(e))
      case Ok(book) =>
        if book.owner.None? then Step(db, Err(NullOwner))
        else if book.owner.value != user.id then Step(db, Err(NotOwner))
        else
          assert ValidBook(book);
          Step(db.(books := db.books[bookId := book.(owner := None)]), Ok(true))
  }

  /** Attaching then detaching the same book succeeds both times and leaves
      the book unowned, every other row as before; for a book that had no
      owner the store is back where it started. */
  lemma AddThenRemove(db: Db, userId: int, bookId: int)
    requires Consistent(db) && userId in db.users && bookId in db.books
    ensures var s1 := AddBookStep(db, userId, bookId);
      var s2 := RemoveBookStep(s1.db, userId, bookId);
      && s1.out == Ok(true) && s2.out == Ok(true)
      && s2.db == db.(books := db.books[bookId := db.books[bookId].(owner := None)])
      && (db.books[bookId].owner == None ==> s2.db == db)
  {
  }

  /** Detaching a book that another user owns fails and changes nothing. */
  lemma RemoveByOtherFails(db: Db, userId: int, other: int, bookId: int)
    requires Consistent(db) && userId in db.users && bookId in db.books
    requires db.books[bookId].owner == Some(other) && other != userId
    ensures RemoveBookStep(db, userId, bookId) == Step(db, Err(NotOwner))
  {
  }

  /** An owned book appears in its owner's transfer shape at exactly one position. */
  lemma {:induction false} ListedOnce(db: Db, user: User, bookId: int)
    requires Consistent(db) && bookId in db.books && db.books[bookId].owner == Some(user.id)
    ensures var d := ToUserDTO(db, Some(user)).value;
      && BookDTO(bookId, db.books[bookId].title, db.books[bookId].author) in d.books
      && |set i | 0 <= i < |d.books| && d.books[i].id == bookId| == 1
  {
    var books := ToUserDTO(db, Some(user)).value.books;
    var dto := BookDTO(bookId, db.books[bookId].title, db.books[bookId].author);
    assert dto in books;
    var k :| 0 <= k < |books| && books[k] == dto;
    OnlyPosition(books, k);
  }

  /** In a list with strictly ascending ids, an id sits at one position only. */
  lemma OnlyPosition(books: seq<BookDTO>, k: int)
    requires forall i, j | 0 <= i < j < |books| :: books[i].id < books[j].id
    requires 0 <= k < |books|
    ensures (set i | 0 <= i < |books| && books[i].id == books[k].id) == {k}
  {
  }

  /** After attaching, the user's transfer shape lists the book exactly once,
      with its title and author. */
  lemma {:induction false} AttachListsBookOnce(db: Db, userId: int, bookId: int)
    requires Consistent(db) && userId in db.users && bookId in db.books
    ensures var s := AddBookStep(db, userId, bookId);
      var d := FindById(s.db, userId).value;
      && BookDTO(bookId, db.books[bookId].title, db.books[bookId].author) in d.books
      && |set i | 0 <= i < |d.books| && d.books[i].id == bookId| == 1
  {
    var s := AddBookStep(db, userId, bookId);
    ListedOnce(s.db, s.db.users[userId], bookId);
  }

  /** After attaching, no other user's transfer shape lists the book: a
      previous owner loses it. */
  lemma AttachMovesBook(db: Db, userId: int, bookId: int, other: int)
    requires Consistent(db) && userId in db.users && bookId in db.books
    requires other in db.users && other != userId
    ensures var s := AddBookStep(db, userId, bookId);
      forall i | 0 <= i < |FindById(s.db, other).value.books| :: FindById(s.db, other).value.books[i].id != bookId
  {
  }

  /** After detaching, the user's transfer shape no longer lists the book. */
  lemma DetachUnlists(db: Db, userId: int, bookId: int)
    requires Consistent(db) && RemoveBookStep(db, userId, bookId).out.Ok?
    ensures var s := RemoveBookStep(db, userId, bookId);
      var d := FindById(s.db, userId).value;
      && |d.books| == |FindById(db, userId).value.books| - 1
      && forall i | 0 <= i < |d.books| :: d.books[i].id != bookId
  {
    var s := RemoveBookStep(db, userId, bookId);
    assert OwnedKeys(s.db.books, userId) == OwnedKeys(db.books, userId) - {bookId};
  }

  /** A created user is found under the returned id with the given name and
      email and no books, and every user stored before looks the same. */
  lemma CreateThenFind(db: Db, name: string, email: string)
    requires Consistent(db) && ValidName(name) && ValidEmail(email)
    ensures var s := CreateUserStep(db, name, email);
      && s.out.Ok?
      && FindById(s.db, s.out.value.id) == Some(UserDTO(s.out.value.id, name, email, []))
      && (forall id | id in db.users :: FindById(s.db, id) == FindById(db, id))
      && |FindAll(s.db)| == |FindAll(db)| + 1
  {
  }

  /** A deleted user is no longer found; an updated user is found with the new
      name and email and the same books. */
  lemma DeleteAndUpdateThenFind(db: Db, id: int, name: string, email: string)
    requires Consistent(db)
    ensures DeleteUserStep(db, id).out == Ok(true) ==> FindById(DeleteUserStep(db, id).db, id) == None
    ensures UpdateUserStep(db, id, name, email).out == Ok(true) ==>
      FindById(UpdateUserStep(db, id, name, email).db, id) ==
        Some(UserDTO(id, name, email, FindById(db, id).value.books))
  {
  }

  /** The service object: its repositories are the shared store. */
  class UserService {
    const store: Library

    constructor (store: Library)
      ensures this.store == store
    {
      this.store := store;
    }

    method CreateUser(name: string, email: string) returns (r: Result<UserDTO, Error>)
      requires store.Valid()
      modifies store
      ensures store.Valid()
      ensures Step(store.State(), r) == CreateUserStep(old(store.State()), name, email)
    {
      var user := User(store.nextUserId, name, email);
      if !ValidUser(user) {
        return Err(ConstraintViolation);
      }
      NoOwnedKeys(store.State(), user.id);
      store.users := store.users[user.id := user];
      store.nextUserId := store.nextUserId + 1;
      var dto := ToUserDTO(store.State(), Some(user));
      r := Ok(dto.value);
    }

    method DeleteUser(id: int) returns (r: Result<bool, Error>)
      requires store.Valid()
      modifies store
      ensures store.Valid()
      ensures Step(store.State(), r) == DeleteUserStep(old(store.State()), id)
    {
      if id !in store.users {
        return Ok(false);
      }
      if OwnedKeys(store.books, id) != {} {
        return Err(ForeignKeyViolation);
      }
      NoOwnedKeys(store.State(), id);
      store.users := store.users - {id};
      r := Ok(true);
    }

    method UpdateUser(id: int, name: string, email: string) returns (r: Result<bool, Error>)
      requires store.Valid()
      modifies store
      ensures store.Valid()
      ensures Step(store.State(), r) == UpdateUserStep(old(store.State()), id, name, email)
    {
      if id !in store.users {
        return Ok(false);
      }
      var user := store.users[id];
      user := user.(name := name);
      user := user.(email := email);
      if !ValidUser(user) {
        return Err(ConstraintViolation);
      }
      store.users := store.users[id := user];
      r := Ok(true);
    }

    method AddBookToUser(userId: int, bookId: int) returns (r: Result<bool, Error>)
      requires store.Valid()
      modifies store
      ensures store.Valid()
      ensures Step(store.State(), r) == AddBookStep(old(store.State()), userId, bookId)
    {
      var user := GetUser(store.State(), userId);
      if user.Err? {
        return Err(user.error);
      }
      var book := GetBook(store.State(), bookId);
      if book.Err? {
        return Err(book.error);
      }
      assert ValidBook(book.value);
      var b := book.value.(owner := Some(user.value.id));
      store.books := store.books[bookId := b];
      r := Ok(true);
    }

    method RemoveBookFromUser(userId: int, bookId: int) returns (r: Result<bool, Error>)
      requires store.Valid()
      modifies store
      ensures store.Valid()
      ensures Step(store.State(), r) == RemoveBookStep(old(store.State()), userId, bookId)
    {
      var user := GetUser(store.State(), userId);
      if user.Err? {
        return Err(user.error);
      }
      var book := GetBook(store.State(), bookId);
      if book.Err? {
        return Err(book.error);
      }
      if book.value.owner.None? {
        return Err(NullOwner);
      }
      if book.value.owner.value != user.value.id {
        return Err(NotOwner);
      }
      assert ValidBook(book.value);
      var b := book.value.(owner := None);
      store.books := store.books[bookId := b];
      r := Ok(true);
    }
  }
}
