/**
 * The three live field checks of static/js/script.js: the password pattern
 * (line 32), the username pattern (line 54) and the email pattern (line 77),
 * each mapped to the hint the page shows. Only the choice of hint is
 * modelled; the DOM writes (`textContent`, `style.color`) are not.
 *
 * Each pattern is a JavaScript regular expression without flags: `.` stops
 * at the four line terminators, `\s` is the ECMAScript whitespace set, `\d`
 * is `[0-9]`, and `$` matches only at the very end.
 */
module ClientValidation {
  import opened PasswordPolicy

  /** ECMAScript LineTerminator: the characters `.` does not match. */
  predicate IsLineTerminator(c: char) {
    c == '\n' || c == '\r' || c == '\U{2028}' || c == '\U{2029}'
  }

  /** ECMAScript `\s`: WhiteSpace (including the Zs category) and LineTerminator. */
  predicate IsJsWhitespace(c: char) {
    IsLineTerminator(c) ||
    c == '\t' || c == '\U{000B}' || c == '\U{000C}' || c == ' ' || c == '\U{00A0}' ||
    c == '\U{1680}' || ('\U{2000}' <= c <= '\U{200A}') ||
    c == '\U{202F}' || c == '\U{205F}' || c == '\U{3000}' || c == '\U{FEFF}'
  }

  // ---------------------------------------------------------------------------
  // Password: /^(?=.*[a-z])(?=.*[A-Z])(?=.*\d)(?=.*[@$!%*?&]).{8,}$/

  predicate NoLineTerminatorBefore(s: string, i: int)
    requires 0 <= i <= |s|
  {
    forall j :: 0 <= j < i ==> !IsLineTerminator(s[j])
  }

  /** `(?=.*[K])` at position 0: a character of kind `k` reachable without crossing a line terminator. */
  predicate JsLookahead(s: string, k: CharKind) {
    exists i :: 0 <= i < |s| && OfKind(k, s[i]) && NoLineTerminatorBefore(s, i)
  }

  /**
   * `.{8,}$` at position 0. JavaScript's `$` (without the `m` flag) matches
   * only at the very end, so the run of non-terminators must cover the whole
   * string and be at least 8 long.
   */
  predicate JsPasswordBody(s: string) {
    |s| >= MinLength && NoLineTerminatorBefore(s, |s|)
  }

  /** `pattern.test(password)` for the pattern of script.js:32. */
  predicate PasswordPatternTest(s: string) {
    JsLookahead(s, Lower) && JsLookahead(s, Upper) && JsLookahead(s, Digit) && JsLookahead(s, Symbol) &&
    JsPasswordBody(s)
  }

  /**
   * The client's rule in plain terms: at least 8 characters, none a line
   * terminator, with a lowercase letter, an uppercase letter, a digit and
   * one of `@$!%*?&`. Any other character is allowed.
   */
  predicate ClientStrongShape(s: string) {
    |s| >= MinLength && NoLineTerminatorBefore(s, |s|) &&
    Contains(s, Lower) && Contains(s, Upper) && Contains(s, Digit) && Contains(s, Symbol)
  }

  lemma {:induction false} JsLookaheadIsContains(s: string, k: CharKind)
    requires NoLineTerminatorBefore(s, |s|)
    ensures JsLookahead(s, k) <==> Contains(s, k)
  {
    if Contains(s, k) {
      var i :| 0 <= i < |s| && OfKind(k, s[i]);
      assert NoLineTerminatorBefore(s, i);
    }
  }

  /** The password pattern accepts exactly the strings of `ClientStrongShape`. */
  lemma {:induction false} ClientPasswordCharacterization(s: string)
    ensures PasswordPatternTest(s) <==> ClientStrongShape(s)
  {
    if JsPasswordBody(s) {
      JsLookaheadIsContains(s, Lower);
      JsLookaheadIsContains(s, Upper);
      JsLookaheadIsContains(s, Digit);
      JsLookaheadIsContains(s, Symbol);
    }
    if ClientStrongShape(s) {
      assert JsPasswordBody(s) by { assert MinLength <= |s| && NoLineTerminatorBefore(s, |s|); }
    }
  }

  /** The hint under the password field. */
  datatype PasswordHint = PasswordBlank | WeakPassword | StrongPassword

  /**
   * script.js:34-43: an empty field shows nothing; otherwise "Strong"
   * exactly when the client rule holds, "Weak" when it does not.
   */
  function PasswordHintFor(password: string): (h: PasswordHint)
    ensures h == PasswordBlank <==> password == ""
    ensures h == StrongPassword <==> ClientStrongShape(password)
    ensures h == WeakPassword <==> password != "" && !ClientStrongShape(password)
  {
    ClientPasswordCharacterization(password);
    if password == "" then PasswordBlank
    else if !PasswordPatternTest(password) then WeakPassword
    else StrongPassword
  }

  /**
   * Every password the server accepts, apart from one ending in the "\n"
   * the server's `$` lets through, is shown as "Strong" by the client.
   */
  lemma {:induction false} ClientAcceptsServerPasswords(s: string)
    requires IsStrongPassword(s)
    requires |s| == 0 || s[|s| - 1] != '\n'
    ensures PasswordHintFor(s) == StrongPassword
  {
    StrongPasswordCharacterization(s);
    assert StrongCore(s);
    assert NoLineTerminatorBefore(s, |s|) by {
      forall j | 0 <= j < |s| ensures !IsLineTerminator(s[j]) { assert IsAllowed(s[j]); }
    }
  }

  /** A server-accepted password with the trailing "\n" is "Weak" on the client. */
  lemma {:induction false} ClientRejectsTrailingNewline(s: string)
    requires IsStrongPassword(s)
    requires |s| > 0 && s[|s| - 1] == '\n'
    ensures PasswordHintFor(s) == WeakPassword
  {
    assert IsLineTerminator(s[|s| - 1]);
  }

  /**
   * Over the server's alphabet (letters, digits, `@$!%*?&`) the two checks
   * agree exactly; they differ only on other characters.
   */
  lemma {:induction false} ChecksAgreeOnServerAlphabet(s: string)
    requires forall j :: 0 <= j < |s| ==> IsAllowed(s[j])
    ensures IsStrongPassword(s) <==> PasswordHintFor(s) == StrongPassword
  {
    StrongPasswordCharacterization(s);
    assert NoLineTerminatorBefore(s, |s|) by {
      forall j | 0 <= j < |s| ensures !IsLineTerminator(s[j]) { assert IsAllowed(s[j]); }
    }
    if |s| > 0 {
      assert s[|s| - 1] != '\n' by { assert IsAllowed(s[|s| - 1]); }
    }
  }

  /** The client is looser: "Abc def1!" (with a space) shows "Strong" but the server refuses it. */
  lemma SpaceAcceptedOnlyByClient()
    ensures PasswordHintFor("Abc def1!") == StrongPassword
    ensures !IsStrongPassword("Abc def1!")
  {
    var s := "Abc def1!";
    assert IsLower(s[1]) && IsUpper(s[0]) && IsDigit(s[7]) && IsSymbol(s[8]);
    assert NoLineTerminatorBefore(s, |s|);
    StrongPasswordCharacterization(s);
    assert !IsAllowed(s[3]);
  }

  // ---------------------------------------------------------------------------
  // Username: /^[A-Za-z]+$/

  predicate IsAsciiLetter(c: char) { IsLower(c) || IsUpper(c) }

  /** `/^[A-Za-z]+$/.test(username)` (script.js:54). */
  predicate UsernamePatternTest(s: string) {
    |s| >= 1 && forall j :: 0 <= j < |s| ==> IsAsciiLetter(s[j])
  }

  /** The hint under the username field. */
  datatype UsernameHint = UsernameBlank | LettersOnly | UsernameValid

  /**
   * script.js:56-65: an empty field shows nothing; a field holding any
   * character that is not an ASCII letter shows the letters-only warning;
   * otherwise "Valid".
   */
  function UsernameHintFor(username: string): (h: UsernameHint)
    ensures h == UsernameBlank <==> username == ""
    ensures h == LettersOnly <==> exists j :: 0 <= j < |username| && !IsAsciiLetter(username[j])
    ensures h == UsernameValid <==> username != "" && forall j :: 0 <= j < |username| ==> IsAsciiLetter(username[j])
  {
    if username == "" then UsernameBlank
    else if !UsernamePatternTest(username) then LettersOnly
    else UsernameValid
  }

  // ---------------------------------------------------------------------------
  // Email: /^[^\s@]+@[^\s@]+\.[^\s@]+$/

  /** `[^\s@]` */
  predicate IsEmailChar(c: char) { !IsJsWhitespace(c) && c != '@' }

  /** `[^\s@]+` matching exactly `s[lo..hi]`. */
  predicate EmailRun(s: string, lo: int, hi: int)
    requires 0 <= lo <= hi <= |s|
  {
    lo < hi && forall j :: lo <= j < hi ==> IsEmailChar(s[j])
  }

  /**
   * The split a match of script.js:77 makes: `@` at `a` and `.` at `d`
   * divide the string into three non-empty runs of `[^\s@]`.
   */
  predicate EmailSplit(s: string, a: int, d: int) {
    0 < a < d < |s| && s[a] == '@' && s[d] == '.' &&
    EmailRun(s, 0, a) && EmailRun(s, a + 1, d) && EmailRun(s, d + 1, |s|)
  }

  /** `emailPattern.test(email)` (script.js:77): the string splits as the pattern requires. */
  predicate EmailPatternTest(s: string) {
    exists a, d :: 0 < a < d < |s| && EmailSplit(s, a, d)
  }

  /** The position of the first `c` in `s`, or `|s|` when there is none. */
  function IndexOf(s: string, c: char): (r: nat)
    ensures r <= |s|
    ensures r < |s| ==> s[r] == c
    ensures forall j :: 0 <= j < r ==> s[j] != c
    decreases |s|
  {
    if |s| == 0 then 0
    else if s[0] == c then 0
    else 1 + IndexOf(s[1..], c)
  }

  /**
   * The email rule in plain terms: no whitespace; an `@` that is not the
   * first character and is the only `@`; and after it a `.` that is
   * neither the first nor the last character of the domain part.
   */
  predicate EmailShape(s: string) {
    var a := IndexOf(s, '@');
    (forall j :: 0 <= j < |s| ==> !IsJsWhitespace(s[j])) &&
    0 < a < |s| &&
    '@' !in s[a + 1..] &&
    a + 2 < |s| && '.' in s[a + 2..|s| - 1]
  }

  /** In a split, the `@` at `a` is the first `@` of the string. */
  lemma SplitAtIsFirst(s: string, a: int, d: int)
    requires EmailSplit(s, a, d)
    ensures IndexOf(s, '@') == a
  {
    forall j | 0 <= j < a ensures s[j] != '@' { assert IsEmailChar(s[j]); }
  }

  /** A split string holds no whitespace. */
  lemma SplitHasNoWhitespace(s: string, a: int, d: int)
    requires EmailSplit(s, a, d)
    ensures forall j :: 0 <= j < |s| ==> !IsJsWhitespace(s[j])
  {
    forall j | 0 <= j < |s| ensures !IsJsWhitespace(s[j]) {
      if j != a && j != d { assert IsEmailChar(s[j]); }
    }
  }

  /** A split string holds no second `@`. */
  lemma SplitHasOneAt(s: string, a: int, d: int)
    requires EmailSplit(s, a, d)
    ensures '@' !in s[a + 1..]
  {
    var tail := s[a + 1..];
    forall i | 0 <= i < |tail| ensures tail[i] != '@' {
      var j := a + 1 + i;
      assert tail[i] == s[j];
      if j != d { assert IsEmailChar(s[j]); }
    }
  }

  /** A string the email pattern accepts has the shape. */
  lemma {:induction false} EmailPatternHasShape(s: string)
    requires EmailPatternTest(s)
    ensures EmailShape(s)
  {
    var a, d :| EmailSplit(s, a, d);
    SplitAtIsFirst(s, a, d);
    SplitHasNoWhitespace(s, a, d);
    SplitHasOneAt(s, a, d);
    assert s[a + 2..|s| - 1][d - (a + 2)] == '.';
  }

  /** A string with the shape is accepted by the email pattern. */
  lemma {:induction false} EmailShapeMatchesPattern(s: string)
    requires EmailShape(s)
    ensures EmailPatternTest(s)
  {
    var a := IndexOf(s, '@');
    var dot := s[a + 2..|s| - 1];
    var i :| 0 <= i < |dot| && dot[i] == '.';
    var d := a + 2 + i;
    assert s[d] == '.';
    forall j | 0 <= j < |s| && j != a ensures IsEmailChar(s[j]) {
      assert !IsJsWhitespace(s[j]);
      if j > a { assert s[j] == s[a + 1..][j - (a + 1)]; }
    }
    assert EmailSplit(s, a, d);
  }

  /** The email pattern accepts exactly the strings of `EmailShape`. */
  lemma EmailCharacterization(s: string)
    ensures EmailPatternTest(s) <==> EmailShape(s)
  {
    if EmailPatternTest(s) { EmailPatternHasShape(s); }
    if EmailShape(s) { EmailShapeMatchesPattern(s); }
  }

  /** The outcome of the email check: stop with a format warning, or go on to ask the server. */
  datatype EmailHint = InvalidEmailFormat | AskServer

  /**
   * script.js:78-85: an email that fails the pattern shows "Invalid email
   * format" and returns before any request; only a well-formed one reaches
   * the availability request. The empty field fails the pattern.
   */
  function EmailHintFor(email: string): (h: EmailHint)
    ensures h == InvalidEmailFormat <==> !EmailShape(email)
    ensures email == "" ==> h == InvalidEmailFormat
  {
    EmailCharacterization(email);
    if !EmailPatternTest(email) then InvalidEmailFormat else AskServer
  }
}
