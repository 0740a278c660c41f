/**
 * The request handlers of app.py as methods of one object holding the
 * application's mutable state: the `user` table, one browser's Flask
 * `session` dictionary, and the reset emails handed to Flask-Mail.
 *
 * A handler's HTTP response is a `Response` value; the message it flashes
 * travels with it as a `Notice`. Randomness (the hash salt) and the clock
 * (token timestamps) are parameters.
 */
module AuthApp {
  import opened Credentials
  import opened Accounts
  import opened PasswordPolicy

  datatype HttpMethod = Get | Post

  /** The message each `flash(...)` call of app.py shows, or none. */
  datatype Notice =
    | NoNotice
    | UsernameExists          // app.py:77
    | EmailAlreadyRegistered  // app.py:83
    | PasswordTooWeak         // app.py:89
    | RegistrationSuccessful  // app.py:98
    | LoginSuccessful         // app.py:122
    | InvalidCredentials      // app.py:127
    | ResetLinkSent           // app.py:149
    | EmailNotFound           // app.py:154
    | ResetLinkInvalid        // app.py:166
    | PasswordUpdated         // app.py:177

  /**
   * What a handler answers: a rendered template, a redirect, a plain text
   * body, or an unhandled exception (HTTP 500) raised after `notice` was
   * flashed.
   */
  datatype Response =
    | Page(template: string, notice: Notice)
    | Redirect(location: string, notice: Notice)
    | Text(body: string)
    | ServerError(cause: string, notice: Notice)

  /** The values this application stores in the session. */
  datatype SessionValue = Num(n: int) | Str(s: string)

  /** One message passed to `mail.send`: its recipient and the token in its reset link. */
  datatype ResetMail = ResetMail(recipient: string, token: Token)

  const UserIdKey: string := "user_id"
  const UserNameKey: string := "user_name"
  /** The key `logout` pops; no handler ever sets it. */
  const LogoutKey: string := "user"

  /** `url_for('forgot')` names no endpoint (the view is `forgot_password`), so it raises. */
  const ForgotUrlError: string := "BuildError: url_for('forgot')"

  /** Decimal digits of a natural number, as Python's `str` prints it. */
  function NatToDecimal(n: nat): string
    decreases n
  {
    if n < 10 then ["0123456789"[n]] else NatToDecimal(n / 10) + ["0123456789"[n % 10]]
  }

  /**
   * A session value as an f-string prints it. Only `login` writes
   * `user_name`, and always as a string (`LoggedIn`); the `Num` case keeps
   * `DashboardView` total over every session, as Python's f-string is.
   */
  function Show(v: SessionValue): string {
    match v
    case Str(s) => s
    case Num(n) => if n < 0 then "-" + NatToDecimal(-n) else NatToDecimal(n)
  }

  /** The session a successful login leaves behind (app.py:119-120). */
  function LoggedIn(session: map<string, SessionValue>, u: User): map<string, SessionValue> {
    session[UserIdKey := Num(u.id)][UserNameKey := Str(u.username)]
  }

  /**
   * The response of `dashboard` for a given session: a greeting when
   * `user_id` is present (a `KeyError` if `user_name` then is not), otherwise
   * a redirect to the login page.
   */
  function DashboardView(session: map<string, SessionValue>): Response {
    if UserIdKey in session then
      if UserNameKey in session then Text("Welcome " + Show(session[UserNameKey]) + "!")
      else ServerError("KeyError: 'user_name'", NoNotice)
    else Redirect("/login", NoNotice)
  }

  /** After a successful login the dashboard greets that user by username, whatever the session held before. */
  lemma DashboardGreetsLoggedInUser(session: map<string, SessionValue>, u: User)
    ensures DashboardView(LoggedIn(session, u)) == Text("Welcome " + u.username + "!")
  {
  }

  /**
   * `logout` pops a key no handler sets: `user_id` and `user_name` survive,
   * so the dashboard answers exactly as before.
   */
  lemma LogoutKeepsDashboard(session: map<string, SessionValue>)
    ensures DashboardView(session - {LogoutKey}) == DashboardView(session)
  {
    var s' := session - {LogoutKey};
    assert UserIdKey in s' <==> UserIdKey in session;
    assert UserNameKey in s' <==> UserNameKey in session;
    if UserNameKey in session {
      assert s'[UserNameKey] == session[UserNameKey];
    }
  }

  /** A user who logged in is still greeted after logging out. */
  lemma LoginThenLogoutStillGreets(session: map<string, SessionValue>, u: User)
    ensures DashboardView(LoggedIn(session, u) - {LogoutKey}) == Text("Welcome " + u.username + "!")
  {
    LogoutKeepsDashboard(LoggedIn(session, u));
    DashboardGreetsLoggedInUser(session, u);
  }

  class App {
    /** The `user` table. */
    var users: seq<User>
    /** One client's Flask `session`. */
    var session: map<string, SessionValue>
    /** Reset emails handed to `mail.send`, oldest first. */
    var outbox: seq<ResetMail>

    /** The table's UNIQUE and PRIMARY KEY constraints hold. */
    ghost predicate Valid()
      reads this
    {
      UniqueAccounts(users)
    }

    /** An empty table, an empty session and nothing sent. */
    constructor ()
      ensures Valid()
      ensures users == [] && session == map[] && outbox == []
    {
      users := [];
      session := map[];
      outbox := [];
    }

    /**
     * `register`: on POST, refuse a taken username, then a taken email, then
     * a weak password, each with a redirect back and no write; otherwise
     * insert one row holding the hash of the password. A successful POST
     * renders the form again (the redirect at app.py:100 is built and
     * dropped).
     */
    method Register(m: HttpMethod, username: string, email: string, password: string, salt: string)
      returns (resp: Response)
      requires Valid()
      modifies this
      ensures Valid()
      ensures session == old(session) && outbox == old(outbox)
      ensures m == Get ==> users == old(users) && resp == Page("register.html", NoNotice)
      ensures m == Post && Taken(old(users), UsernameColumn, username) ==>
        users == old(users) && resp == Redirect("/register", UsernameExists)
      ensures m == Post && !Taken(old(users), UsernameColumn, username) && Taken(old(users), EmailColumn, email) ==>
        users == old(users) && resp == Redirect("/register", EmailAlreadyRegistered)
      ensures (m == Post && !Taken(old(users), UsernameColumn, username) && !Taken(old(users), EmailColumn, email) &&
               !IsStrongPassword(password)) ==>
        users == old(users) && resp == Redirect("/register", PasswordTooWeak)
      ensures (m == Post && !Taken(old(users), UsernameColumn, username) && !Taken(old(users), EmailColumn, email) &&
               IsStrongPassword(password)) ==>
        users == old(users) + [User(NextId(old(users)), username, email, GeneratePasswordHash(password, salt))] &&
        resp == Page("register.html", RegistrationSuccessful)
    {
      if m == Get {
        return Page("register.html", NoNotice);
      }
      if FirstWhere(users, UsernameColumn, username).Some? {
        return Redirect("/register", UsernameExists);
      }
      if FirstWhere(users, EmailColumn, email).Some? {
        return Redirect("/register", EmailAlreadyRegistered);
      }
      if !IsStrongPassword(password) {
        return Redirect("/register", PasswordTooWeak);
      }
      var hashed := GeneratePasswordHash(password, salt);
      InsertKeepsUnique(users, username, email, hashed);
      users := users + [User(NextId(users), username, email, hashed)];
      resp := Page("register.html", RegistrationSuccessful);
    }

    /**
     * `login`: on POST, look the input up as a username, then as an email;
     * when a row is found and its hash checks, record its id and username in
     * the session and go to the dashboard; otherwise go back to the login
     * page with the session untouched.
     */
    method Login(m: HttpMethod, identifier: string, password: string) returns (resp: Response)
      requires Valid()
      modifies this
      ensures Valid()
      ensures users == old(users) && outbox == old(outbox)
      ensures m == Get ==> session == old(session) && resp == Page("login.html", NoNotice)
      ensures m == Post ==>
        var found := Authenticate(old(users), identifier, password);
        (found.Some? ==> session == LoggedIn(old(session), found.value) && resp == Redirect("/dashboard", LoginSuccessful)) &&
        (found.None? ==> session == old(session) && resp == Redirect("/login", InvalidCredentials))
    {
      if m == Get {
        return Page("login.html", NoNotice);
      }
      var candidate := FirstWhere(users, UsernameColumn, identifier);
      if candidate.None? {
        candidate := FirstWhere(users, EmailColumn, identifier);
      }
      if candidate.Some? && CheckPasswordHash(users[candidate.value].passwordHash, password) {
        var u := users[candidate.value];
        session := session[UserIdKey := Num(u.id)];
        session := session[UserNameKey := Str(u.username)];
        resp := Redirect("/dashboard", LoginSuccessful);
      } else {
        resp := Redirect("/login", InvalidCredentials);
      }
    }

    /**
     * `forgot_password`: on POST, when some row has this email, send one
     * reset email whose token is signed over the email with the reset salt
     * at time `now`; otherwise report the email as unknown. No row changes.
     */
    method ForgotPassword(m: HttpMethod, email: string, now: int) returns (resp: Response)
      requires Valid()
      modifies this
      ensures Valid()
      ensures users == old(users) && session == old(session)
      ensures m == Get ==> outbox == old(outbox) && resp == Page("forget.html", NoNotice)
      ensures m == Post && Taken(old(users), EmailColumn, email) ==>
        outbox == old(outbox) + [ResetMail(email, Dumps(email, ResetSalt, now))] &&
        resp == Redirect("/forget", ResetLinkSent)
      ensures m == Post && !Taken(old(users), EmailColumn, email) ==>
        outbox == old(outbox) && resp == Redirect("/forget", EmailNotFound)
    {
      if m == Get {
        return Page("forget.html", NoNotice);
      }
      if FirstWhere(users, EmailColumn, email).Some? {
        var token := Dumps(email, ResetSalt, now);
        outbox := outbox + [ResetMail(email, token)];
        resp := Redirect("/forget", ResetLinkSent);
      } else {
        resp := Redirect("/forget", EmailNotFound);
      }
    }

    /**
     * `reset_password`: load the token with the reset salt and a one-hour
     * maximum age (on GET as well as POST); a bad or expired token ends in
     * the failing `url_for('forgot')`. On POST with a good token, overwrite
     * the hash of the row with the token's email, without checking the new
     * password's strength; every other column and row stays as it was.
     */
    method ResetPassword(m: HttpMethod, token: Token, newPassword: string, now: int, salt: string)
      returns (resp: Response)
      requires Valid()
      modifies this
      ensures Valid()
      ensures session == old(session) && outbox == old(outbox)
      ensures Loads(token, ResetSalt, ResetMaxAge, now).Err? ==>
        users == old(users) && resp == ServerError(ForgotUrlError, ResetLinkInvalid)
      ensures Loads(token, ResetSalt, ResetMaxAge, now).Ok? && m == Get ==>
        users == old(users) && resp == Page("reset.html", NoNotice)
      ensures Loads(token, ResetSalt, ResetMaxAge, now).Ok? && m == Post ==>
        var row := FirstWhere(old(users), EmailColumn, Loads(token, ResetSalt, ResetMaxAge, now).value);
        (row.Some? ==>
          users == WithPasswordHash(old(users), row.value, GeneratePasswordHash(newPassword, salt)) &&
          resp == Redirect("/login", PasswordUpdated)) &&
        (row.None? ==> users == old(users) && resp == Page("reset.html", NoNotice))
    {
      var loaded := Loads(token, ResetSalt, ResetMaxAge, now);
      if loaded.Err? {
        return ServerError(ForgotUrlError, ResetLinkInvalid);
      }
      var email := loaded.value;
      if m == Post {
        var row := FirstWhere(users, EmailColumn, email);
        if row.Some? {
          var hashed := GeneratePasswordHash(newPassword, salt);
          WithPasswordHashKeepsIdentity(users, row.value, hashed);
          users := WithPasswordHash(users, row.value, hashed);
          return Redirect("/login", PasswordUpdated);
        }
      }
      resp := Page("reset.html", NoNotice);
    }

    /** `dashboard`: answers from the session alone and changes nothing. */
    method Dashboard() returns (resp: Response)
      ensures resp == DashboardView(session)
      ensures UserIdKey !in session ==> resp == Redirect("/login", NoNotice)
      ensures UserIdKey in session && UserNameKey in session && session[UserNameKey].Str? ==>
        resp == Text("Welcome " + session[UserNameKey].s + "!")
    {
      resp := DashboardView(session);
    }

    /** `logout`: pops the key `user` (absent or not) and nothing else, then goes to the login page. */
    method Logout() returns (resp: Response)
      requires Valid()
      modifies this
      ensures Valid()
      ensures session == old(session) - {LogoutKey}
      ensures users == old(users) && outbox == old(outbox)
      ensures resp == Redirect("/login", NoNotice)
    {
      session := session - {LogoutKey};
      resp := Redirect("/login", NoNotice);
    }
  }
  /** "Abc123!@" meets the stated password rule. */
  lemma FirstPasswordMeetsRule()
    ensures StrongCore("Abc123!@")
  {
    var p := "Abc123!@";
    forall j | 0 <= j < |p| ensures IsAllowed(p[j]) {
      if j < 3 { assert IsLower(p[j]) || IsUpper(p[j]); }
      else if j < 6 { assert IsDigit(p[j]); }
      else { assert IsSymbol(p[j]); }
    }
    assert OfKind(Lower, p[1]) && OfKind(Upper, p[0]) && OfKind(Digit, p[3]) && OfKind(Symbol, p[6]);
  }

  /** "NewPass1!" meets the stated password rule. */
  lemma SecondPasswordMeetsRule()
    ensures StrongCore("NewPass1!")
  {
    var q := "NewPass1!";
    forall j | 0 <= j < |q| ensures IsAllowed(q[j]) {
      if j < 7 { assert IsLower(q[j]) || IsUpper(q[j]); }
      else if j == 7 { assert IsDigit(q[j]); }
      else { assert IsSymbol(q[j]); }
    }
    assert OfKind(Lower, q[1]) && OfKind(Upper, q[0]) && OfKind(Digit, q[7]) && OfKind(Symbol, q[8]);
  }

  /** "Abc123!@" and "NewPass1!" pass `is_strong_password`. */
  lemma ScenarioPasswordsAreStrong()
    ensures IsStrongPassword("Abc123!@") && IsStrongPassword("NewPass1!")
  {
    FirstPasswordMeetsRule();
    StrongCoreAccepted("Abc123!@");
    SecondPasswordMeetsRule();
    StrongCoreAccepted("NewPass1!");
  }

  /** A new application in which "bob" has registered with "bob@x.com" and "Abc123!@". */
  method AppWithBob() returns (app: App)
    ensures fresh(app) && app.Valid()
    ensures app.users == [User(1, "bob", "bob@x.com", GeneratePasswordHash("Abc123!@", "salt-1"))]
    ensures app.session == map[] && app.outbox == []
  {
    app := new App();
    ScenarioPasswordsAreStrong();
    var r := app.Register(Post, "bob", "bob@x.com", "Abc123!@", "salt-1");
    assert r == Page("register.html", RegistrationSuccessful);
  }

  /**
   * A client of the handlers: log in by username, log out (the dashboard
   * still greets), then log in by email. The outcomes follow from the
   * handlers' contracts alone.
   */
  method LoginLogoutScenario()
  {
    var app := AppWithBob();
    var bob := app.users[0];
    var r := app.Login(Post, "bob", "Abc123!@");
    LoginByUsername(app.users, "bob", "Abc123!@", 0);
    assert r == Redirect("/dashboard", LoginSuccessful);
    assert app.session == LoggedIn(map[], bob);
    DashboardGreetsLoggedInUser(map[], bob);
    var page := app.Dashboard();
    assert page == Text("Welcome bob!");
    r := app.Logout();
    LoginThenLogoutStillGreets(map[], bob);
    page := app.Dashboard();
    assert page == Text("Welcome bob!");

    assert !Taken(app.users, UsernameColumn, "bob@x.com");
    LoginByEmail(app.users, "bob@x.com", "Abc123!@", 0);
    r := app.Login(Post, "bob@x.com", "Abc123!@");
    assert r == Redirect("/dashboard", LoginSuccessful);
  }

  /**
   * A client of the handlers: request a reset link for a registered email,
   * use it within the hour; the old password then fails and the new one
   * works; the same link is refused once it is over an hour old.
   */
  method PasswordResetScenario()
  {
    var app := AppWithBob();
    assert Field(app.users[0], EmailColumn) == "bob@x.com";
    var r := app.ForgotPassword(Post, "bob@x.com", 1000);
    assert r == Redirect("/forget", ResetLinkSent);
    var token := app.outbox[0].token;
    assert token == Dumps("bob@x.com", ResetSalt, 1000);
    LoadsDumpsRoundTrip("bob@x.com", ResetSalt, 1000, ResetMaxAge, 1000 + 3599);
    FirstWhereFindsTheMatch(app.users, EmailColumn, "bob@x.com", 0);
    r := app.ResetPassword(Post, token, "NewPass1!", 1000 + 3599, "salt-2");
    assert r == Redirect("/login", PasswordUpdated);
    assert app.users == [User(1, "bob", "bob@x.com", GeneratePasswordHash("NewPass1!", "salt-2"))];

    LoginByUsername(app.users, "bob", "Abc123!@", 0);
    r := app.Login(Post, "bob", "Abc123!@");
    assert r == Redirect("/login", InvalidCredentials);
    LoginByUsername(app.users, "bob", "NewPass1!", 0);
    r := app.Login(Post, "bob", "NewPass1!");
    assert r == Redirect("/dashboard", LoginSuccessful);

    LoadsDumpsRoundTrip("bob@x.com", ResetSalt, 1000, ResetMaxAge, 1000 + 3601);
    r := app.ResetPassword(Post, token, "x", 1000 + 3601, "salt-3");
    assert r == ServerError(ForgotUrlError, ResetLinkInvalid);
  }
}
