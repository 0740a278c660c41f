/**
 * The `user` table of app.py (app.py:47-51) as an in-memory sequence of rows,
 * the two equality lookups the handlers run on it
 * (`User.query.filter_by(username=...)` / `filter_by(email=...)` with
 * `.first()`), the uniqueness constraints the table declares, the id SQLite
 * assigns on insert, and the login matching rule of app.py:112-118.
 *
 * Lookups are exact, case-sensitive string comparisons, as SQLite's `=` on
 * TEXT with the default collation.
 */
module Accounts {
  import opened Credentials

  datatype Option<T> = None | Some(value: T)

  /** One row of the `user` table; `passwordHash` is the `password` column. */
  datatype User = User(id: int, username: string, email: string, passwordHash: PasswordHash)

  /** The two columns the handlers filter on. */
  datatype Column = UsernameColumn | EmailColumn

  function Field(u: User, col: Column): string {
    match col
    case UsernameColumn => u.username
    case EmailColumn => u.email
  }

  /**
   * `User.query.filter_by(<col>=value).first()`: the position of the first
   * row whose column equals `value`, or `None` when no row does.
   */
  function FirstWhere(users: seq<User>, col: Column, value: string): (r: Option<nat>)
    ensures r.Some? ==> r.value < |users| && Field(users[r.value], col) == value
    ensures r.Some? ==> forall j :: 0 <= j < r.value ==> Field(users[j], col) != value
    ensures r.None? <==> forall j :: 0 <= j < |users| ==> Field(users[j], col) != value
    decreases |users|
  {
    if |users| == 0 then None
    else if Field(users[0], col) == value then Some(0)
    else match FirstWhere(users[1..], col, value)
      case None => None
      case Some(k) => Some(k + 1)
  }

  /** Some row has `value` in column `col`. */
  predicate Taken(users: seq<User>, col: Column, value: string) {
    exists j :: 0 <= j < |users| && Field(users[j], col) == value
  }

  /** The table's constraints: `id` is the primary key, `username` and `email` are UNIQUE. */
  predicate UniqueAccounts(users: seq<User>) {
    forall i, j :: 0 <= i < j < |users| ==>
      users[i].id != users[j].id &&
      users[i].username != users[j].username &&
      users[i].email != users[j].email
  }

  /** Under the constraints, a lookup finds the one matching row, so `.first()` does not depend on row order. */
  lemma FirstWhereFindsTheMatch(users: seq<User>, col: Column, value: string, i: nat)
    requires UniqueAccounts(users)
    requires i < |users| && Field(users[i], col) == value
    ensures FirstWhere(users, col, value) == Some(i)
  {
    var r := FirstWhere(users, col, value);
    assert r.Some?;
  }

  /** The largest `id` in a non-empty table. */
  function LargestId(users: seq<User>): (r: int)
    requires |users| > 0
    ensures forall j :: 0 <= j < |users| ==> users[j].id <= r
    ensures exists j :: 0 <= j < |users| && users[j].id == r
    decreases |users|
  {
    var last := users[|users| - 1].id;
    if |users| == 1 then last
    else
      var rest := LargestId(users[..|users| - 1]);
      if last < rest then rest else last
  }

  /**
   * The `id` SQLite gives a row inserted without one into a table whose
   * INTEGER PRIMARY KEY is a rowid alias: one more than the largest id in
   * the table, or 1 when the table is empty.
   */
  function NextId(users: seq<User>): (r: int)
    ensures forall j :: 0 <= j < |users| ==> users[j].id < r
    ensures |users| == 0 ==> r == 1
  {
    if |users| == 0 then 1 else LargestId(users) + 1
  }

  /**
   * Inserting a row whose username and email are not yet taken, with the id
   * SQLite assigns, keeps every constraint of the table.
   */
  lemma InsertKeepsUnique(users: seq<User>, username: string, email: string, h: PasswordHash)
    requires UniqueAccounts(users)
    requires !Taken(users, UsernameColumn, username) && !Taken(users, EmailColumn, email)
    ensures UniqueAccounts(users + [User(NextId(users), username, email, h)])
  {
    var users' := users + [User(NextId(users), username, email, h)];
    forall i, j | 0 <= i < j < |users'|
      ensures users'[i].id != users'[j].id
      ensures users'[i].username != users'[j].username
      ensures users'[i].email != users'[j].email
    {
      if j == |users| {
        assert users'[i] == users[i];
        assert Field(users[i], UsernameColumn) != username;
        assert Field(users[i], EmailColumn) != email;
      }
    }
  }

  /** The table after `user.password = h` on row `i` is committed. */
  function WithPasswordHash(users: seq<User>, i: nat, h: PasswordHash): seq<User>
    requires i < |users|
  {
    users[i := users[i].(passwordHash := h)]
  }

  /** Overwriting one row's hash changes no id, username or email, and so keeps the constraints. */
  lemma WithPasswordHashKeepsIdentity(users: seq<User>, i: nat, h: PasswordHash)
    requires i < |users|
    ensures |WithPasswordHash(users, i, h)| == |users|
    ensures forall j :: 0 <= j < |users| ==>
      var u := WithPasswordHash(users, i, h)[j];
      u.id == users[j].id && u.username == users[j].username && u.email == users[j].email &&
      (j != i ==> u == users[j])
    ensures WithPasswordHash(users, i, h)[i].passwordHash == h
    ensures UniqueAccounts(users) ==> UniqueAccounts(WithPasswordHash(users, i, h))
  {
  }

  /**
   * The row app.py:112-115 settles on: the first row whose username is
   * `identifier`, and only when there is none, the first whose email is.
   */
  function LoginCandidate(users: seq<User>, identifier: string): (r: Option<nat>)
    ensures r.Some? ==> (r.value < |users| &&
      (users[r.value].username == identifier ||
       (users[r.value].email == identifier && !Taken(users, UsernameColumn, identifier))))
    ensures r.None? <==> !Taken(users, UsernameColumn, identifier) && !Taken(users, EmailColumn, identifier)
  {
    match FirstWhere(users, UsernameColumn, identifier)
    case Some(i) => Some(i)
    case None => FirstWhere(users, EmailColumn, identifier)
  }

  /** The condition of app.py:118: a candidate row exists and its hash checks against `password`. */
  function Authenticate(users: seq<User>, identifier: string, password: string): (r: Option<User>)
    ensures r.Some? ==> r.value in users && CheckPasswordHash(r.value.passwordHash, password)
    ensures r.Some? ==> (r.value.username == identifier ||
      (r.value.email == identifier && !Taken(users, UsernameColumn, identifier)))
  {
    match LoginCandidate(users, identifier)
    case None => None
    case Some(i) => if CheckPasswordHash(users[i].passwordHash, password) then Some(users[i]) else None
  }

  /** A username match decides the login on its own: it succeeds exactly when that row's hash checks. */
  lemma LoginByUsername(users: seq<User>, identifier: string, password: string, i: nat)
    requires UniqueAccounts(users)
    requires i < |users| && users[i].username == identifier
    ensures Authenticate(users, identifier, password) ==
      if CheckPasswordHash(users[i].passwordHash, password) then Some(users[i]) else None
  {
    FirstWhereFindsTheMatch(users, UsernameColumn, identifier, i);
  }

  /** With no username match, the email column is tried with the same input. */
  lemma LoginByEmail(users: seq<User>, identifier: string, password: string, i: nat)
    requires UniqueAccounts(users)
    requires !Taken(users, UsernameColumn, identifier)
    requires i < |users| && users[i].email == identifier
    ensures Authenticate(users, identifier, password) ==
      if CheckPasswordHash(users[i].passwordHash, password) then Some(users[i]) else None
  {
    FirstWhereFindsTheMatch(users, EmailColumn, identifier, i);
  }

  /** An identifier that is neither a username nor an email never logs in. */
  lemma LoginUnknownIdentifier(users: seq<User>, identifier: string, password: string)
    requires !Taken(users, UsernameColumn, identifier) && !Taken(users, EmailColumn, identifier)
    ensures Authenticate(users, identifier, password) == None
  {
    assert FirstWhere(users, UsernameColumn, identifier) == None;
    assert FirstWhere(users, EmailColumn, identifier) == None;
  }

  /**
   * A username match with the wrong password fails, even when another row's
   * email equals the same input and the password is right for that row: the
   * email fallback is not tried.
   */
  lemma UsernameMatchBlocksEmailFallback(users: seq<User>, identifier: string, password: string, i: nat, j: nat)
    requires UniqueAccounts(users)
    requires i < |users| && users[i].username == identifier
    requires !CheckPasswordHash(users[i].passwordHash, password)
    requires j < |users| && users[j].email == identifier && CheckPasswordHash(users[j].passwordHash, password)
    ensures Authenticate(users, identifier, password) == None
  {
    LoginByUsername(users, identifier, password, i);
  }

  /**
   * After a successful registration the new account logs in, by username
   * and (when no other account uses that string as a username) by email,
   * with exactly the registered password.
   */
  lemma RegisteredUserCanLogIn(users: seq<User>, username: string, email: string, password: string, salt: string, attempt: string)
    requires UniqueAccounts(users)
    requires !Taken(users, UsernameColumn, username) && !Taken(users, EmailColumn, email)
    ensures
      var u := User(NextId(users), username, email, GeneratePasswordHash(password, salt));
      Authenticate(users + [u], username, attempt) == (if attempt == password then Some(u) else None) &&
      (!Taken(users, UsernameColumn, email) ==>
        Authenticate(users + [u], email, attempt) == (if attempt == password then Some(u) else None))
  {
    var u := User(NextId(users), username, email, GeneratePasswordHash(password, salt));
    var users' := users + [u];
    InsertKeepsUnique(users, username, email, u.passwordHash);
    assert users'[|users|] == u;
    LoginByUsername(users', username, attempt, |users|);
    if !Taken(users, UsernameColumn, email) {
      if username == email {
        LoginByUsername(users', email, attempt, |users|);
      } else {
        assert !Taken(users', UsernameColumn, email) by {
          forall j | 0 <= j < |users'| ensures Field(users'[j], UsernameColumn) != email {
            if j < |users| { assert users'[j] == users[j]; }
          }
        }
        LoginByEmail(users', email, attempt, |users|);
      }
    }
  }

  /**
   * After a password reset on row `i`, that account logs in by username with
   * the new password and with nothing else; the old password stops working
   * unless it equals the new one.
   */
  lemma ResetReplacesCredential(users: seq<User>, i: nat, newPassword: string, salt: string, attempt: string)
    requires UniqueAccounts(users)
    requires i < |users|
    ensures
      var users' := WithPasswordHash(users, i, GeneratePasswordHash(newPassword, salt));
      Authenticate(users', users[i].username, attempt) ==
        (if attempt == newPassword then Some(users'[i]) else None)
  {
    var users' := WithPasswordHash(users, i, GeneratePasswordHash(newPassword, salt));
    WithPasswordHashKeepsIdentity(users, i, GeneratePasswordHash(newPassword, salt));
    LoginByUsername(users', users[i].username, attempt, i);
  }
}
