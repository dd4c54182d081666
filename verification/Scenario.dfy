/** A walk through both services on an empty store: create a user, create a
    book the user owns, read the user, detach the book, read the user again. */
module Scenario {
  import opened Wrappers
  import opened Entities
  import opened Store
  import Users
  import Books

  /** Creating the user and then a book owned by id 1 on an empty store. */
  lemma {:induction false} CreateBoth(name: string, email: string, title: string, author: string)
    requires ValidName(name) && ValidEmail(email) && ValidTitle(title) && ValidAuthor(author)
    ensures var s1 := Users.CreateUserStep(Empty(), name, email);
      var s2 := Books.CreateBookStep(s1.db, title, author, Some(1));
      && s1.out == Ok(Users.UserDTO(1, name, email, []))
      && s2.out == Ok(Book(1, title, author, Some(1)))
      && s2.db == Db(map[1 := User(1, name, email)], map[1 := Book(1, title, author, Some(1))], 2, 2)
  {
  }

  /** Reading user 1, detaching book 1 and reading again, on that store. */
  lemma {:induction false} ReadDetachRead(name: string, email: string, title: string, author: string)
    requires ValidName(name) && ValidEmail(email) && ValidTitle(title) && ValidAuthor(author)
    ensures var db := Db(map[1 := User(1, name, email)], map[1 := Book(1, title, author, Some(1))], 2, 2);
      var s := Users.RemoveBookStep(db, 1, 1);
      && Users.FindById(db, 1) == Some(Users.UserDTO(1, name, email, [Users.BookDTO(1, title, author)]))
      && s.out == Ok(true)
      && Books.FindById(s.db, 1) == Some(Book(1, title, author, None))
      && Users.FindById(s.db, 1) == Some(Users.UserDTO(1, name, email, []))
  {
    var db := Db(map[1 := User(1, name, email)], map[1 := Book(1, title, author, Some(1))], 2, 2);
    var d := Users.FindById(db, 1).value;
    assert OwnedKeys(db.books, 1) == {1};
    assert |d.books| == 1;
    assert d.books[0].id in db.books;
    assert d.books == [Users.BookDTO(1, title, author)];
    var s := Users.RemoveBookStep(db, 1, 1);
    assert s.db == db.(books := map[1 := Book(1, title, author, None)]);
    assert OwnedKeys(s.db.books, 1) == {};
    assert Users.FindById(s.db, 1).value.books == [];
  }

  /** User "Ana" with "ana@example.com" and book "Dune" by "Herbert". */
  lemma {:induction false} AnaAndDune()
    ensures var s1 := Users.CreateUserStep(Empty(), "Ana", "ana@example.com");
      var s2 := Books.CreateBookStep(s1.db, "Dune", "Herbert", Some(1));
      var s3 := Users.RemoveBookStep(s2.db, 1, 1);
      && s1.out == Ok(Users.UserDTO(1, "Ana", "ana@example.com", []))
      && Users.FindById(s2.db, 1) ==
           Some(Users.UserDTO(1, "Ana", "ana@example.com", [Users.BookDTO(1, "Dune", "Herbert")]))
      && s3.out == Ok(true)
      && Users.FindById(s3.db, 1) == Some(Users.UserDTO(1, "Ana", "ana@example.com", []))
  {
    var email := "ana@example.com";
    assert email[3] == '@' && '@' !in email[4..];
    assert ValidEmail(email);
    CreateBoth("Ana", email, "Dune", "Herbert");
    ReadDetachRead("Ana", email, "Dune", "Herbert");
  }
}
