# Library store: a Dafny model of the user/book service layer

The system is a small Spring backend over two tables, `users` and `books`.
A book has at most one owner, held as a nullable reference from the book to a user.
A user's list of books is not stored: it is the set of books that name that user as owner.
`UserService` looks users up and projects them to transfer shapes (`UserDTO`, each with a list of `BookDTO`).
It also creates, updates and deletes users, and attaches a book to a user or detaches it.
`BookService` lists books, looks one up and creates one, optionally with an owner.

The model has six modules:

- `Wrappers`: `Option` (a null return) and `Result` (a thrown exception as `Err`).
- `Entities`: the `User` and `Book` rows and their bean-validation constraints (`models/User.java`, `models/Book.java`).
- `Store`: the two repositories as `map<int, User>` and `map<int, Book>` with identity counters.
  It holds the `Error` variants, the store invariant `Consistent`, the primary-key listing order `Scan`, and the derived list `BooksOf`.
  The class `Library` holds the tables as fields that the services update in place.
- `Users`: `UserService`. Its queries are functions of a store snapshot (`Db`).
  Each state-changing operation is a pure step function (`CreateUserStep`, ...) with a contract saying what changes.
  It is also a method of class `UserService` that updates the `Library` in place and is proved equal to that step function.
- `Books`: `BookService`, built the same way.
- `Scenario`: one end-to-end run over both services on an empty store.

Every step function preserves `Consistent`, which says:
- each row is keyed by its own id;
- each id comes from its generator (1, 2, ...) and lies below the next value;
- every stored row satisfies its field constraints;
- every owner is a stored user.

The model follows the code, including where it departs from the intended design:
- Detaching an unowned book dereferences a null owner at `UserService.java:134`, so it fails as `NullOwner`, not as an ownership mismatch.
- `BookService` has no update or delete of books, so the model has none.

## Model

| member | source | states |
|---|---|---|
| `Entities.Utf16Length` | src/main/java/com/example/demo/models/User.java:22 | The length `@Size` measures is in UTF-16 units: at least the character count and at most twice it. |
| `Entities.Utf16Units` | src/main/java/com/example/demo/models/User.java:22 | A string without characters above U+FFFF has one unit per character; a single character above U+FFFF has two. |
| `Entities.ValidName` | src/main/java/com/example/demo/models/User.java:21-23 | A valid name has 1 to 64 UTF-16 units, hence 1 to 64 characters; every name of 1 to 32 characters is valid. |
| `Entities.ValidEmail` | src/main/java/com/example/demo/models/User.java:25-28 | The empty email is valid; a valid non-empty email contains '@' and does not end with it. |
| `Entities.ValidTitle` | src/main/java/com/example/demo/models/Book.java:17-19 | A valid title has 1 to 128 UTF-16 units, hence 1 to 128 characters; every title of 1 to 64 characters is valid. |
| `Entities.ValidAuthor` | src/main/java/com/example/demo/models/Book.java:21-23 | A valid author has 1 to 128 UTF-16 units, hence 1 to 128 characters; every author of 1 to 64 characters is valid. |
| `Entities.ValidUser` | src/main/java/com/example/demo/models/User.java:21-28 | A valid user has a name of 1 to 64 characters and an email that is empty or contains '@'; a short name with an empty email is valid. |
| `Entities.ValidBook` | src/main/java/com/example/demo/models/Book.java:17-23 | A valid book has a title and an author of 1 to 128 characters each; any of 1 to 64 characters each is valid. |
| `Store.Consistent` | src/main/java/com/example/demo/models/User.java:17-32 | In a consistent store the next id of each generator is not yet used by any row. |
| `Store.Empty` | src/main/java/com/example/demo/services/BookService.java:14-15 | The store of a fresh database is consistent and has no users and no books. |
| `Store.Library.constructor` | src/main/java/com/example/demo/services/UserService.java:20-21 | The repositories start empty and consistent. |
| `Store.Scan` | src/main/java/com/example/demo/services/UserService.java:46 | The repository listing is the stored ids within a range, each once, in strictly ascending order. |
| `Store.IncreasingCount` | src/main/java/com/example/demo/services/UserService.java:45-50 | A strictly increasing listing has exactly as many entries as distinct ids, so nothing is listed twice. |
| `Store.AllIds` | src/main/java/com/example/demo/services/BookService.java:24-26 | Listing a table yields every stored id exactly once, ascending, and as many entries as rows. |
| `Store.BooksOf` | src/main/java/com/example/demo/models/User.java:30-32 | A user's books are exactly the stored books whose owner is that user, each once, ascending by id, as many as such books. |
| `Store.NoOwnedKeys` | src/main/java/com/example/demo/models/User.java:30-32 | A user owns nothing exactly when no book names it as owner; an id with no user row owns nothing. |
| `Store.StoredUsersValid` | src/main/java/com/example/demo/models/User.java:17-28 | Every stored user carries its store-assigned id (at least 1), a name of 1 to 64 characters and a well-formed email. |
| `Store.StoredBooksValid` | src/main/java/com/example/demo/models/Book.java:13-27 | Every stored book carries its store-assigned id, a title and an author of 1 to 128 characters, and either no owner or one stored user. |
| `Store.OwnedByOne` | src/main/java/com/example/demo/models/Book.java:25-27 | A book is listed under its owner and under no other user. |
| `Users.ToUserDTO` | src/main/java/com/example/demo/services/UserService.java:150-159 | Null maps to null. Otherwise id, name and email are kept, and the book list holds exactly the user's owned books as (id, title, author): each once, ascending, as many as the user owns. |
| `Users.FindById` | src/main/java/com/example/demo/services/UserService.java:35-38 | Returns the user's transfer shape when the id is stored and null when it is not; reads only. |
| `Users.FindAll` | src/main/java/com/example/demo/services/UserService.java:45-50 | One transfer shape per stored user: as many as users, every user present, ascending by id, each equal to that user's projection. |
| `Users.GetUser` | src/main/java/com/example/demo/services/UserService.java:168-171 | Returns the stored user, or fails with UserNotFound for that id exactly when it is absent. |
| `Users.GetBook` | src/main/java/com/example/demo/services/UserService.java:180-183 | Returns the stored book, or fails with BookNotFound for that id exactly when it is absent. |
| `Users.CreateUserStep` | src/main/java/com/example/demo/services/UserService.java:59-65 | Succeeds exactly when name and email meet the constraints. It adds one user under the generator's next id, advances that generator by one so the id is never reused, leaves the books table alone, and returns that user with an empty book list. Otherwise it fails with ConstraintViolation and nothing changes. |
| `Users.DeleteUserStep` | src/main/java/com/example/demo/services/UserService.java:73-82 | Returns false with no change exactly when the id is absent. Returns true and removes only that row exactly when the user is stored and owns no book. A stored user who owns books is refused and nothing changes. |
| `Users.UpdateUserStep` | src/main/java/com/example/demo/services/UserService.java:92-103 | Returns false with no change exactly when the id is absent. Returns true exactly when the user is stored and the new values are valid; then only that user's name and email change. Invalid values fail with no change. |
| `Users.AddBookStep` | src/main/java/com/example/demo/services/UserService.java:112-120 | An unknown user fails first with UserNotFound, then an unknown book with BookNotFound, with no change. Otherwise it returns true, sets the book's owner to the user whatever it was, and changes no other row. |
| `Users.RemoveBookStep` | src/main/java/com/example/demo/services/UserService.java:130-142 | Fails with no change in four cases: unknown user, unknown book, unowned book (NullOwner), or book owned by another user (NotOwner). It succeeds exactly when the user owns the book; it then returns true, clears the owner, and changes nothing else. |
| `Users.AddThenRemove` | src/main/java/com/example/demo/services/UserService.java:112-142 | Attaching then detaching the same book succeeds twice and leaves the book unowned, every other row as before. For a book that had no owner the store returns to where it started. |
| `Users.RemoveByOtherFails` | src/main/java/com/example/demo/services/UserService.java:134-136 | Detaching a book that another user owns fails with NotOwner and leaves the store unchanged. |
| `Users.AttachListsBookOnce` | src/main/java/com/example/demo/services/UserService.java:112-120 | After attaching, the user's transfer shape lists the book with its title and author, at exactly one position. |
| `Users.AttachMovesBook` | src/main/java/com/example/demo/services/UserService.java:116-117 | After attaching, no other user's transfer shape lists the book: a previous owner silently loses it. |
| `Users.DetachUnlists` | src/main/java/com/example/demo/services/UserService.java:138-139 | After detaching, the user's transfer shape has one book fewer and does not list the book. |
| `Users.CreateThenFind` | src/main/java/com/example/demo/services/UserService.java:59-65 | A created user is found under the returned id with the given name and email and no books. Users stored before look the same, and the user listing grows by one. |
| `Users.DeleteAndUpdateThenFind` | src/main/java/com/example/demo/services/UserService.java:73-103 | After a successful delete the user is not found. After a successful update the user is found with the new name and email and the same books. |
| `Users.UserService.constructor` | src/main/java/com/example/demo/services/UserService.java:24-27 | The service works on the store it is given. |
| `Users.UserService.CreateUser` | src/main/java/com/example/demo/services/UserService.java:59-65 | Updates the store in place and returns exactly what `CreateUserStep` specifies, keeping the store invariant. |
| `Users.UserService.DeleteUser` | src/main/java/com/example/demo/services/UserService.java:73-82 | Updates the store in place as `DeleteUserStep` specifies, keeping the store invariant. |
| `Users.UserService.UpdateUser` | src/main/java/com/example/demo/services/UserService.java:92-103 | Sets name and email on the found user and saves it, as `UpdateUserStep` specifies. |
| `Users.UserService.AddBookToUser` | src/main/java/com/example/demo/services/UserService.java:112-120 | Looks up user then book, sets the owner and saves, as `AddBookStep` specifies. |
| `Users.UserService.RemoveBookFromUser` | src/main/java/com/example/demo/services/UserService.java:130-142 | Looks up user then book, checks ownership, clears the owner and saves, as `RemoveBookStep` specifies. |
| `Books.FindAll` | src/main/java/com/example/demo/services/BookService.java:24-26 | Every stored book exactly once, unchanged, ascending by id, as many as rows; reads only. |
| `Books.FindById` | src/main/java/com/example/demo/services/BookService.java:28-30 | Returns the stored book with that id, or null exactly when it is absent; reads only. |
| `Books.CreateBookStep` | src/main/java/com/example/demo/services/BookService.java:32-43 | A named owner that is not stored fails with UserNotFound and nothing is saved. Otherwise invalid title or author fail with no change. Success adds one book under the generator's next id and advances that generator by one, with the given title, author and owner (none for a null owner id). The users table never changes. |
| `Books.CreatedBookFound` | src/main/java/com/example/demo/services/BookService.java:37-42 | A created book is found under its id, and the book listing grows by one. A book created with an owner appears in that owner's transfer shape. |
| `Books.BookService.constructor` | src/main/java/com/example/demo/services/BookService.java:19-22 | The service works on the store it is given. |
| `Books.BookService.CreateBook` | src/main/java/com/example/demo/services/BookService.java:32-43 | Builds the book, resolves the optional owner, then saves, as `CreateBookStep` specifies. |
| `Scenario.CreateBoth` | src/main/java/com/example/demo/services/UserService.java:59-65 | On an empty store, for valid values: the user gets id 1 with no books, the book owned by user 1 gets id 1, and the store then holds exactly those two rows with both generators at 2. |
| `Scenario.ReadDetachRead` | src/main/java/com/example/demo/services/UserService.java:112-142 | On that store: user 1 shows the book, detaching it succeeds, the book is then unowned, and user 1 shows no books. |
| `Scenario.AnaAndDune` | src/main/java/com/example/demo/services/BookService.java:32-43 | The same walk for user "Ana" with "ana@example.com" and book "Dune" by "Herbert". |

## Left out

- Controllers (`UserController.java`, `BookController.java`): HTTP routing and status codes are not part of this model. Their `deleteBook` and `updateBook` calls name methods that `BookService` does not have, so neither exists here.
- `OpenApiConfig.java`: framework configuration.
- Exception messages: each exception is an `Error` variant without its text.
- Identity generation: modelled as two counters starting at 1. Ids are unbounded integers, so the 64-bit `Long` range is not modelled.
- Transactions, lazy loading and concurrent requests (last writer wins) are not modelled. Each operation is one atomic step.
- Null arguments (a null id or name) are not modelled. Ids and strings are always values. Only `createBook`'s owner id is optional (`Option<int>`).
- Users.RemoveBookStep: the ownership check at `UserService.java:134` uses the generated `equals` over the two entity graphs. The model compares owner ids instead.
- Users.DeleteUserStep: the code leaves deleting a user who still owns books to the database. The model takes the foreign-key outcome: the delete is refused (`ForeignKeyViolation`) and nothing changes. Cascading or nulling the owner is not modelled.
- Users.ToUserDTO: where the source's `books` is still null after the save, `createUser` throws NullPointerException at `UserService.java:154` after the row is stored. The model returns an empty list instead.
- Entities.ValidEmail: `@Email` is modelled by shape only. The empty string passes. Otherwise the last '@' must split a local part of 1 to 64 UTF-16 units from a domain of 1 to 255 units. The validator's character classes and dot rules are not modelled.
- Bean validation is modelled as a rejection of the whole save (`ConstraintViolation`, nothing stored). When Hibernate runs it relative to the flush is not modelled.
- Listing order: the repositories' `findAll` promises no order. The model lists rows and owned books in ascending id, the order of a primary-key scan.
