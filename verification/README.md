# Flask authentication system: a Dafny model

This project models the core of a small Flask authentication application.
The core has two parts:

- the account state machine of `app.py`: the password-strength rule, the
  `user` table, and the six request handlers `register`, `login`,
  `forgot_password`, `reset_password`, `dashboard` and `logout`;
- the live field checks of `static/js/script.js`: the password, username
  and email patterns and the hint each one shows.

Modules:

- `PasswordPolicy` (`password_policy.dfy`): `is_strong_password`. The regular
  expression is modelled as Python's engine reads it: four lookaheads tried at
  position 0, where `.` stops at a newline, then the body class repeated at
  least 8 times, then `$`. The lemma `StrongPasswordCharacterization` proves
  which strings it accepts: a string of at least 8 letters, digits and
  `@$!%*?&` that contains one of each kind, and also such a string followed by
  a single `"\n"`. The second case exists because `re.match` with `$` matches
  before a final newline.
- `Credentials` (`credentials.dfy`): stand-ins for werkzeug's password
  hashing and itsdangerous's timed serializer. The hash is idealised: a stored
  hash checks against exactly the password it was made from. The random salt
  is a parameter. A token is an abstract record
  `Token(email, issuedAt, salt, sigOk)`. `Loads` rejects a token whose
  signature or salt is wrong, and then one whose age is outside `0..3600`
  seconds.
- `Accounts` (`accounts.dfy`): the `user` table as a sequence of
  `User(id, username, email, passwordHash)` rows. `FirstWhere` models
  `filter_by(...).first()`. `UniqueAccounts` states the table's PRIMARY KEY and
  UNIQUE constraints. `NextId` is the id SQLite assigns on insert. The module
  also holds the login rule (username first, then email) and the lemmas
  relating registration, reset and login.
- `AuthApp` (`auth_app.dfy`): the class `App`. It holds the table, one
  client's `session` map and the reset emails handed to the mailer. It has one
  method per handler, and each method states the response and the whole new
  state for every branch. Two client methods, `LoginLogoutScenario` and
  `PasswordResetScenario`, call the handlers in the order register, login,
  logout and register, forgot, reset; each outcome in them is proved from the
  handlers' contracts alone.
- `ClientValidation` (`client_validation.dfy`): the three JavaScript
  patterns, modelled as JavaScript's engine reads them. Each has a plain
  characterisation and a function that gives the hint shown. Lemmas compare
  the client password check with the server's.

Behaviour worth noting, modelled as the code has it (some of it differs from
what a reader of the handlers might expect):

- A successful `register` renders the registration page again with the
  success message. The redirect built at `app.py:100` is never returned. It
  does not redirect to the login page.
- An invalid or expired reset token flashes its message and then calls
  `url_for('forgot')`. No endpoint has that name, so the call raises and the
  request ends in a server error (`Response.ServerError`). It does not return
  a typed `InvalidToken`/`Expired` result.
- `reset_password` on POST with a valid token for an email that no row has
  does not report `NotFound`. It renders the reset page again.
- `reset_password` stores the new password without checking its strength.
- `logout` removes only the session key `user`, which nothing ever sets. So
  `user_id` and `user_name` survive and `dashboard` still greets the user
  (`LogoutKeepsDashboard`).
- `forgot_password` tells a known email from an unknown one (`ResetLinkSent`
  or `EmailNotFound`).

## Model

| member | source | states |
|---|---|---|
| `PasswordPolicy.StrongPasswordCharacterization` | app.py:59-61 | `is_strong_password` accepts exactly the strings of 8 or more letters, digits and `@$!%*?&` that contain a lowercase letter, an uppercase letter, a digit and a symbol, plus each such string followed by one `"\n"`. It rejects everything else. |
| `PasswordPolicy.IsStrongPassword` | app.py:59-61 | The definition of `re.match` with the server pattern, as Python's engine reads it: four lookaheads at position 0, each finding a character of its class before any `"\n"`, then a run of at least 8 allowed characters that ends at the end of the string or just before a final `"\n"`. |
| `PasswordPolicy.StrongCoreAccepted` | app.py:59-61 | A string that meets the stated rule is accepted, and so is that string followed by one `"\n"`. |
| `PasswordPolicy.ShortPasswordsAreWeak` | app.py:60 | Any password shorter than 8 characters is rejected. |
| `PasswordPolicy.TrailingNewlineAccepted` | app.py:60-61 | `"Abcdef1!\n"` is accepted even though `"\n"` is outside the allowed character set. |
| `Credentials.GeneratePasswordHash` | app.py:92 | The stored value for a password: the salt drawn for the call, together with an idealised digest of the password. |
| `Credentials.CheckPasswordHash` | app.py:118 | A stored value checks against a candidate exactly when the digest came from that candidate. |
| `Credentials.HashCheckCorrespondence` | app.py:118 | Assumption about werkzeug: `check_password_hash(generate_password_hash(p), q)` holds iff `q == p`, whatever salt was drawn. |
| `Credentials.SaltedHashesDiffer` | app.py:92 | The same password hashed with two different salts gives two different stored values. |
| `Credentials.Dumps` | app.py:142 | The token for an email at time `now`: that payload and timestamp, signed with the server secret under the given salt. |
| `Credentials.Loads` | app.py:163 | `BadSignature` when the signature fails or was made under another salt; otherwise `SignatureExpired` when the age `now - issuedAt` is above `max_age` or negative; otherwise the signed email. |
| `Credentials.LoadsAccepts` | app.py:163 | `s.loads` returns the signed email iff the signature verifies, the salt matches and `issuedAt <= now <= issuedAt + max_age`. |
| `Credentials.LoadsDumpsRoundTrip` | app.py:142 | A token dumped at `t` loads back to its email iff `t <= now <= t + max_age`. Otherwise it is `SignatureExpired`. |
| `Credentials.LoadsRejectsOtherSalt` | app.py:163 | A token signed under any salt other than the one given to `loads` is `BadSignature`, however fresh it is. |
| `Credentials.ResetTokenLifetime` | app.py:163 | With salt `'email-reset'` and `max_age=3600`, a reset token is valid 3599 and 3600 seconds after issue and expired at 3601. |
| `Accounts.FirstWhere` | app.py:74 | `filter_by(col=value).first()` returns the first row whose column equals `value`, or none iff no row matches. |
| `Accounts.UniqueAccounts` | app.py:47-51 | The table's constraints: no two rows share an id (the primary key), a username or an email (the UNIQUE columns). |
| `Accounts.FirstWhereFindsTheMatch` | app.py:49-50 | Under the UNIQUE constraints a lookup returns the one matching row, so `.first()` does not depend on row order. |
| `Accounts.LargestId` | app.py:48 | The largest id is at least every id and is the id of some row. |
| `Accounts.NextId` | app.py:96-97 | The id assigned on insert is greater than every existing id, and is 1 in an empty table. |
| `Accounts.InsertKeepsUnique` | app.py:92-97 | Inserting a row whose username and email are both free keeps the id, username and email constraints. |
| `Accounts.WithPasswordHash` | app.py:175-176 | The table after row `i`'s password column is set to the new hash and committed; every other column and row is as before. |
| `Accounts.WithPasswordHashKeepsIdentity` | app.py:175-176 | Overwriting one row's hash changes only that row's hash. Every id, username and email is unchanged, every other row is unchanged, and uniqueness is kept. |
| `Accounts.LoginCandidate` | app.py:112-115 | The row chosen has the input as its username, or has it as its email while no row has it as a username. No row is chosen iff the input is neither a username nor an email. |
| `Accounts.Authenticate` | app.py:118 | A login that succeeds returns a row of the table whose hash checks against the password, found by username or, failing any username match, by email. |
| `Accounts.LoginByUsername` | app.py:112-118 | If a row has the input as its username, login succeeds iff that row's hash checks against the password. No other row is considered. |
| `Accounts.LoginByEmail` | app.py:114-118 | If no row has the input as its username, the email column is tried with the same input. Login succeeds iff the matching row's hash checks. |
| `Accounts.LoginUnknownIdentifier` | app.py:112-118 | An input that is neither a username nor an email never logs in. |
| `Accounts.UsernameMatchBlocksEmailFallback` | app.py:112-118 | A username match with a wrong password fails. This holds even when another row's email equals the input and the password is right for that row. |
| `Accounts.RegisteredUserCanLogIn` | app.py:92-97 | After registration the new account logs in by username, and by email unless that string is someone's username, with exactly the registered password. |
| `Accounts.ResetReplacesCredential` | app.py:171-176 | After a reset the account logs in by username with the new password and nothing else. |
| `AuthApp.LoggedIn` | app.py:119-120 | The session after a successful login: `user_id` set to the row's id and `user_name` to its username, every other key as before. |
| `AuthApp.DashboardView` | app.py:184-188 | The `dashboard` response for a session: without `user_id`, a redirect to `/login`; with `user_id`, `Welcome <user_name>!`, or a `KeyError` when `user_name` is missing. |
| `AuthApp.DashboardGreetsLoggedInUser` | app.py:184-187 | After a successful login, `dashboard` answers `Welcome <username>!`. |
| `AuthApp.LogoutKeepsDashboard` | app.py:191-194 | Popping `user` from any session leaves the `dashboard` response unchanged. |
| `AuthApp.LoginThenLogoutStillGreets` | app.py:186-193 | A user who logged in and then logged out is still greeted by `dashboard`. |
| `AuthApp.ScenarioPasswordsAreStrong` | app.py:59-61 | The scenario passwords `Abc123!@` and `NewPass1!` are strong. |
| `AuthApp.App.constructor` | app.py:47-51 | The store starts with an empty table that meets its constraints, an empty session and no mail sent. |
| `AuthApp.App.Register` | app.py:64-102 | GET changes nothing. POST checks a taken username, then a taken email, then a weak password. The first failure redirects to `/register` with its message and leaves the table unchanged. Otherwise it appends exactly one row (next id, the given username and email, the hash of the password) and renders the form with the success message. Session and mail are untouched, and the constraints are kept. |
| `AuthApp.App.Login` | app.py:105-131 | POST with a username-then-email match whose hash checks sets `user_id` and `user_name` to that row's id and username and redirects to `/dashboard`. Any failure redirects to `/login` with the session unchanged. The table and mail never change. |
| `AuthApp.App.ForgotPassword` | app.py:134-157 | POST for an email some row has sends exactly one mail to it, carrying a token signed over that email with salt `'email-reset'` at `now`. An unknown email sends nothing and reports `Email not found`. The table and session never change. |
| `AuthApp.App.ResetPassword` | app.py:160-181 | A token that fails `loads(salt='email-reset', max_age=3600)` changes nothing and ends in the `url_for('forgot')` error, on GET as well as POST. On POST with a valid token, the hash of exactly the row with the token's email is replaced and the request redirects to `/login`. There is no strength check. With no such row, the reset page is rendered and nothing changes. |
| `AuthApp.App.Dashboard` | app.py:184-188 | Without `user_id` the response redirects to `/login`. With `user_id` and a string `user_name` it greets that name. Nothing changes. |
| `AuthApp.App.Logout` | app.py:191-194 | Removes only the key `user` from the session, changes nothing else and redirects to `/login`. |
| `ClientValidation.PasswordPatternTest` | static/js/script.js:32 | The definition of `pattern.test` as JavaScript's engine reads it: four lookaheads at position 0, each finding a character of its class before any line terminator, then at least 8 non-terminator characters running to the end of the string. |
| `ClientValidation.ClientPasswordCharacterization` | static/js/script.js:32 | The client pattern accepts exactly the strings of at least 8 non-line-terminator characters that contain a lowercase letter, an uppercase letter, a digit and one of `@$!%*?&`. |
| `ClientValidation.JsLookaheadIsContains` | static/js/script.js:32 | In a string without line terminators, each lookahead is plain containment. |
| `ClientValidation.PasswordHintFor` | static/js/script.js:34-43 | An empty field shows no hint. Otherwise the hint is "Strong" iff the client rule holds, and "Weak" iff it does not. |
| `ClientValidation.ClientAcceptsServerPasswords` | static/js/script.js:32 | Every server-accepted password that does not end in `"\n"` is shown as "Strong". |
| `ClientValidation.ClientRejectsTrailingNewline` | static/js/script.js:32 | A server-accepted password ending in `"\n"` is shown as "Weak". |
| `ClientValidation.ChecksAgreeOnServerAlphabet` | static/js/script.js:32 | On strings made only of letters, digits and `@$!%*?&`, the server accepts iff the client shows "Strong". |
| `ClientValidation.SpaceAcceptedOnlyByClient` | static/js/script.js:32 | `"Abc def1!"` is "Strong" on the client and rejected by the server. |
| `ClientValidation.UsernamePatternTest` | static/js/script.js:54 | `/^[A-Za-z]+$/.test`: the string is non-empty and every character is an ASCII letter. |
| `ClientValidation.UsernameHintFor` | static/js/script.js:54-65 | An empty field shows no hint. A field with any character that is not an ASCII letter shows the letters-only warning. Otherwise it shows "Valid". |
| `ClientValidation.EmailPatternTest` | static/js/script.js:77 | The definition of `emailPattern.test`: the string splits as a non-empty run, `@`, a non-empty run, `.`, a non-empty run, each run free of whitespace (the full ECMAScript set) and of `@`. |
| `ClientValidation.IndexOf` | static/js/script.js:77 | The position of the first occurrence of a character, or the length when it is absent. |
| `ClientValidation.EmailCharacterization` | static/js/script.js:77 | The email pattern accepts exactly the strings that have no whitespace, one `@` that is not first, and after it a `.` that is neither first nor last in the domain part. |
| `ClientValidation.EmailPatternHasShape` | static/js/script.js:77 | Every string the email pattern accepts has that shape. |
| `ClientValidation.EmailShapeMatchesPattern` | static/js/script.js:77 | Every string with that shape is accepted by the email pattern. |
| `ClientValidation.EmailHintFor` | static/js/script.js:77-82 | An email that is not well formed (including the empty field) shows "Invalid email format" and stops before any request. Only a well-formed one goes on to the availability request. |

## Left out

- Flask routing, templates, `redirect` and `url_for`: every response is a
  `Response` value. Only the endpoint names the handlers pass (`/register`,
  `/login`, `/dashboard`, `/forget`, `reset.html`, ...) are kept.
- `flash`: the flashed message is carried in the response as a `Notice`. It
  is not written into the session, as Flask really does.
- A POST whose form lacks a field (`request.form[...]` raises a `KeyError`,
  giving a 400 response): every form field is modelled as present.
- SQLAlchemy and SQLite persistence, transactions and the database's own
  uniqueness enforcement under concurrent requests: the table is an in-memory
  sequence, and each handler is one atomic step.
- `NextId`: SQLite's fallback to a random unused rowid once the largest rowid
  reaches 2^63 - 1 is not modelled.
- werkzeug's hash format (`method$salt$digest`), its key derivation and its
  one-wayness: the hash is idealised and collision-free (`HashCheckCorrespondence`).
- itsdangerous's serialisation, the signing key, base64 and the wall clock:
  a token is an abstract record, and the current time is an integer parameter.
- Flask-Mail delivery: a sent message is recorded in `outbox` as its recipient
  and token. The message body and the external link are not modelled.
- Secret-key, mail and database configuration, `load_dotenv`, CSRF protection
  and the debug `print` calls: configuration and logging, not logic.
- Non-ASCII digits: Python's `\d` in the server pattern also matches Unicode
  decimal digits. The model's digit class is `0-9` only.
- JavaScript string length: `.{8,}` counts UTF-16 code units. The model counts
  Unicode scalar values, so a character outside the Basic Multilingual Plane
  counts once instead of twice.
- `fetch('/check_email')` and its three outcomes (static/js/script.js:85-105):
  network I/O to an endpoint that `app.py` does not define. The model stops at
  `AskServer`.
- The show/hide password toggle and every `textContent`/`style.color`
  assignment (static/js/script.js:17-26 and the message updates): DOM effects
  only. The model keeps the choice of message.
- Several browsers: `App.session` is one client's session.
