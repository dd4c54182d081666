/** The two persistent entities, User (models/User.java) and Book
    (models/Book.java), and the bean-validation constraints on their fields. */
module Entities {
  import opened Wrappers

  /** A row of the users table. The `books` list of the Java entity is not
      stored: it is derived from the books table (Store.BooksOf). */
  datatype User = User(id: int, name: string, email: string)

  /** A row of the books table. `owner` is the nullable many-to-one reference
      to a user, kept as that user's id. */
  datatype Book = Book(id: int, title: string, author: string, owner: Option<int>)

  /** The positions of `s` that hold a character above U+FFFF. */
  function Supplementary(s: string): set<int> {
    set i | 0 <= i < |s| && s[i] as int > 0xFFFF
  }

  /** The length Java's String.length() reports: UTF-16 code units, so a
      character above U+FFFF (a surrogate pair) counts twice. */
  function Utf16Length(s: string): (n: nat)
    ensures |s| <= n <= 2 * |s|
  {
    SupplementaryBound(s);
    |s| + |Supplementary(s)|
  }

  lemma SupplementaryBound(s: string)
    ensures |Supplementary(s)| <= |s|
  {
    var all := Positions(|s|);
    assert Supplementary(s) <= all;
    assert all == Supplementary(s) + (all - Supplementary(s));
  }

  /** A string within the Basic Multilingual Plane has one UTF-16 unit per
      character; a lone character above U+FFFF has two. */
  lemma Utf16Units(s: string, c: char)
    ensures (forall i | 0 <= i < |s| :: s[i] as int <= 0xFFFF) ==> Utf16Length(s) == |s|
    ensures c as int > 0xFFFF ==> Utf16Length([c]) == 2
  {
    if forall i | 0 <= i < |s| :: s[i] as int <= 0xFFFF {
      assert Supplementary(s) == {};
    }
    if c as int > 0xFFFF {
      assert 0 in Supplementary([c]);
      assert Supplementary([c]) == {0};
    }
  }

  /** The positions 0 .. n - 1. */
  function Positions(n: nat): (r: set<int>)
    ensures |r| == n
    ensures forall i :: i in r <==> 0 <= i < n
  {
    if n == 0 then {} else Positions(n - 1) + {n - 1}
  }

  /** @Size(min = 1, max = 64) on User.name: a valid name has 1 to 64
      characters, and any name of 1 to 32 characters is valid. */
  predicate ValidName(name: string): (ok: bool)
    ensures ok ==> 1 <= |name| <= 64
    ensures 1 <= |name| <= 32 ==> ok
  {
    1 <= Utf16Length(name) <= 64
  }

  /** @Email on User.email, reduced to its shape: the empty string passes (as it
      does for the validator), otherwise the last '@' splits a local part of
      1 to 64 UTF-16 units from a domain part of 1 to 255 units. */
  predicate ValidEmail(email: string): (ok: bool)
    ensures email == [] ==> ok
    ensures ok && email != [] ==> '@' in email && email[|email| - 1] != '@'
  {
    || |email| == 0
    || exists i | 0 <= i < |email| ::
         && email[i] == '@'
         && '@' !in email[i + 1..]
         && 1 <= Utf16Length(email[..i]) <= 64
         && 1 <= Utf16Length(email[i + 1..]) <= 255
  }

  /** @Size(min = 1, max = 128) on Book.tittle: a valid title has 1 to 128
      characters, and any title of 1 to 64 characters is valid. */
  predicate ValidTitle(title: string): (ok: bool)
    ensures ok ==> 1 <= |title| <= 128
    ensures 1 <= |title| <= 64 ==> ok
  {
    1 <= Utf16Length(title) <= 128
  }

  /** @Size(min = 1, max = 128) on Book.author, measured like the title. */
  predicate ValidAuthor(author: string): (ok: bool)
    ensures ok ==> 1 <= |author| <= 128
    ensures 1 <= |author| <= 64 ==> ok
  {
    1 <= Utf16Length(author) <= 128
  }

  /** The constraints on a User row: its name and its email. */
  predicate ValidUser(u: User): (ok: bool)
    ensures ok ==> 1 <= |u.name| <= 64 && (u.email == [] || '@' in u.email)
    ensures 1 <= |u.name| <= 32 && u.email == [] ==> ok
  {
    ValidName(u.name) && ValidEmail(u.email)
  }

  /** The constraints on a Book row: its title and its author; the owner is
      unconstrained. */
  predicate ValidBook(b: Book): (ok: bool)
    ensures ok ==> 1 <= |b.title| <= 128 && 1 <= |b.author| <= 128
    ensures 1 <= |b.title| <= 64 && 1 <= |b.author| <= 64 ==> ok
  {
    ValidTitle(b.title) && ValidAuthor(b.author)
  }
}
