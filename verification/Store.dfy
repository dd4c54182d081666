/** The two repositories (users and books tables) the services share, their
    failure outcomes, and the order in which a table is listed. */
module Store {
  import opened Wrappers
  import opened Entities

  /** The exceptions the services let escape, one variant each. */
  datatype Error =
    | UserNotFound(userId: int)   // UserNotFoundException
    | BookNotFound(bookId: int)   // BookNotFoundException
    | NotOwner                    // IllegalStateException: book does not belong to the user
    | NullOwner                   // NullPointerException: the book has no owner
    | ConstraintViolation         // bean validation rejects the row being saved
    | ForeignKeyViolation         // the database rejects deleting a user who still owns books

  /** The store after a service call, with what the call returned or threw. */
  datatype Step<+T> = Step(db: Db, out: Result<T, Error>)

  /** A snapshot of both tables and of the two identity generators. */
  datatype Db = Db(users: map<int, User>, books: map<int, Book>, nextUserId: int, nextBookId: int)

  /** The store's invariant: rows are keyed by their own id, ids come from the
      generators (1, 2, ...) and lie below the next value, every stored row
      satisfies its field constraints, and an owner refers to a stored user. */
  ghost predicate Consistent(db: Db): (ok: bool)
    ensures ok ==> db.nextUserId !in db.users && db.nextBookId !in db.books
  {
    && 1 <= db.nextUserId
    && 1 <= db.nextBookId
    && (forall id | id in db.users :: db.users[id].id == id && 1 <= id < db.nextUserId)
    && (forall id {:trigger ValidUser(db.users[id])} | id in db.users :: ValidUser(db.users[id]))
    && (forall id | id in db.books ::
          && db.books[id].id == id && 1 <= id < db.nextBookId
          && (db.books[id].owner.Some? ==> db.books[id].owner.value in db.users))
    && (forall id {:trigger ValidBook(db.books[id])} | id in db.books :: ValidBook(db.books[id]))
  }

  /** The empty store of a fresh database. */
  function Empty(): (db: Db)
    ensures Consistent(db) && db.users == map[] && db.books == map[]
  {
    Db(map[], map[], 1, 1)
  }

  predicate Increasing(s: seq<int>) {
    forall i, j | 0 <= i < j < |s| :: s[i] < s[j]
  }

  /** The keys of `keys` within [lo, hi) in ascending order: the order a
      primary-key scan of a table visits its rows. */
  function Scan(keys: set<int>, lo: int, hi: int): (r: seq<int>)
    ensures forall k :: k in r <==> k in keys && lo <= k < hi
    ensures Increasing(r)
    decreases hi - lo
  {
    if lo >= hi then []
    else
      var rest := Scan(keys, lo + 1, hi);
      if lo in keys then
        assert forall j | 0 <= j < |rest| :: lo < rest[j] by {
          forall j | 0 <= j < |rest| ensures lo < rest[j] { assert rest[j] in rest; }
        }
        [lo] + rest
      else rest
  }

  /** An increasing sequence lists each of its elements exactly once. */
  lemma {:induction false} IncreasingCount(s: seq<int>)
    requires Increasing(s)
    ensures |(set x | x in s)| == |s|
  {
    if s != [] {
      IncreasingCount(s[1..]);
      assert (set x | x in s) == {s[0]} + (set x | x in s[1..]);
      assert s[0] !in (set x | x in s[1..]);
    }
  }

  /** Every id of a table in ascending order: the table as `findAll` lists it. */
  function AllIds<V>(table: map<int, V>, next: int): (r: seq<int>)
    requires forall id | id in table :: 1 <= id < next
    ensures forall k :: k in r <==> k in table
    ensures Increasing(r)
    ensures |r| == |table|
  {
    var r := Scan(table.Keys, 1, next);
    assert (set x | x in r) == table.Keys;
    IncreasingCount(r);
    r
  }

  /** The ids of the books whose owner is `userId`. */
  function OwnedKeys(books: map<int, Book>, userId: int): set<int> {
    set id | id in books && books[id].owner == Some(userId)
  }

  /** No book is owned by a user with no row; a user owns no book exactly when
      no book names it as owner. */
  lemma NoOwnedKeys(db: Db, userId: int)
    requires Consistent(db)
    ensures OwnedKeys(db.books, userId) == {} <==>
      forall k | k in db.books :: db.books[k].owner != Some(userId)
    ensures userId !in db.users ==> OwnedKeys(db.books, userId) == {}
  {
    forall k | k in db.books
      ensures db.books[k].owner == Some(userId) ==> k in OwnedKeys(db.books, userId)
    {
    }
    assert (forall k | k in db.books :: db.books[k].owner != Some(userId)) ==>
      OwnedKeys(db.books, userId) == {};
  }

  /** User.books: not stored, but the books whose owner is the user
      (mappedBy = "user"), in ascending id order. */
  function BooksOf(db: Db, userId: int): (r: seq<Book>)
    requires Consistent(db)
    ensures forall b | b in r :: b.owner == Some(userId)
    ensures forall id | id in db.books && db.books[id].owner == Some(userId) :: db.books[id] in r
    ensures forall i | 0 <= i < |r| :: r[i].id in db.books && db.books[r[i].id] == r[i]
    ensures forall i, j | 0 <= i < j < |r| :: r[i].id < r[j].id
    ensures |r| == |OwnedKeys(db.books, userId)|
  {
    var ids := Scan(OwnedKeys(db.books, userId), 1, db.nextBookId);
    OwnedIdsStored(db, userId, ids);
    var r := seq(|ids|, i requires 0 <= i < |ids| => db.books[ids[i]]);
    BooksOfComplete(db, userId, ids, r);
    assert (set x | x in ids) == OwnedKeys(db.books, userId);
    IncreasingCount(ids);
    r
  }

  lemma OwnedIdsStored(db: Db, userId: int, ids: seq<int>)
    requires Consistent(db) && ids == Scan(OwnedKeys(db.books, userId), 1, db.nextBookId)
    ensures forall i | 0 <= i < |ids| :: ids[i] in db.books && db.books[ids[i]].owner == Some(userId)
  {
    forall i | 0 <= i < |ids|
      ensures ids[i] in db.books && db.books[ids[i]].owner == Some(userId)
    {
      assert ids[i] in ids;
    }
  }

  lemma BooksOfComplete(db: Db, userId: int, ids: seq<int>, r: seq<Book>)
    requires Consistent(db) && ids == Scan(OwnedKeys(db.books, userId), 1, db.nextBookId)
    requires forall i | 0 <= i < |ids| :: ids[i] in db.books
    requires r == seq(|ids|, i requires 0 <= i < |ids| => db.books[ids[i]])
    ensures forall b | b in r :: b.owner == Some(userId)
    ensures forall id | id in db.books && db.books[id].owner == Some(userId) :: db.books[id] in r
    ensures forall i | 0 <= i < |r| :: r[i].id in db.books && db.books[r[i].id] == r[i]
    ensures forall i, j | 0 <= i < j < |r| :: r[i].id < r[j].id
  {
    OwnedIdsStored(db, userId, ids);
    assert forall i | 0 <= i < |r| :: r[i] == db.books[ids[i]] && r[i].id == ids[i];
    forall id | id in db.books && db.books[id].owner == Some(userId)
      ensures db.books[id] in r
    {
      assert id in OwnedKeys(db.books, userId);
      assert id in ids;
      var i :| 0 <= i < |ids| && ids[i] == id;
      assert r[i] == db.books[id];
    }
  }

  /** Every stored user satisfies the User constraints and carries the id the
      store gave it. */
  lemma StoredUsersValid(db: Db, id: int)
    requires Consistent(db) && id in db.users
    ensures db.users[id].id == id && 1 <= id
    ensures 1 <= |db.users[id].name| <= 64
    ensures ValidEmail(db.users[id].email)
  {
    assert ValidUser(db.users[id]);
  }

  /** Every stored book satisfies the Book constraints, and its owner, when
      present, is one stored user. */
  lemma StoredBooksValid(db: Db, id: int)
    requires Consistent(db) && id in db.books
    ensures db.books[id].id == id && 1 <= id
    ensures 1 <= |db.books[id].title| <= 128
    ensures 1 <= |db.books[id].author| <= 128
    ensures db.books[id].owner == None || db.books[id].owner.value in db.users
  {
    assert ValidBook(db.books[id]);
  }

  /** A book references at most one user: it is listed under its owner and
      under no other user. */
  lemma OwnedByOne(db: Db, u: int, v: int, b: Book)
    requires Consistent(db) && u != v
    requires b in BooksOf(db, u)
    ensures b !in BooksOf(db, v)
    ensures b.owner == Some(u)
  {
  }

  /** The users and books repositories, updated in place by the services. */
  class Library {
    var users: map<int, User>
    var books: map<int, Book>
    var nextUserId: int
    var nextBookId: int

    function State(): Db
      reads this
    {
      Db(users, books, nextUserId, nextBookId)
    }

    ghost predicate Valid()
      reads this
    {
      Consistent(State())
    }

    constructor ()
      ensures Valid() && State() == Empty()
    {
      users, books := map[], map[];
      nextUserId, nextBookId := 1, 1;
    }
  }
}
