/**
 * The server-side password-strength rule of app.py (`is_strong_password`).
 *
 * The rule is a Python regular expression run with `re.match`:
 *   ^(?=.*[a-z])(?=.*[A-Z])(?=.*\d)(?=.*[@$!%*?&])[A-Za-z\d@$!%*?&]{8,}$
 * It is modelled first the way the regular-expression engine reads it
 * (`IsStrongPassword`) and then characterised in plain terms
 * (`StrongCore`, `StrongPasswordCharacterization`).
 *
 * Character classes are ASCII only: Python's `\d` also matches non-ASCII
 * decimal digits, which this model does not represent.
 */
module PasswordPolicy {

  /** `[a-z]` */
  predicate IsLower(c: char) { 'a' <= c <= 'z' }

  /** `[A-Z]` */
  predicate IsUpper(c: char) { 'A' <= c <= 'Z' }

  /** `\d`, restricted to ASCII */
  predicate IsDigit(c: char) { '0' <= c <= '9' }

  /** The symbol class `[@$!%*?&]` shared by the server and the client. */
  predicate IsSymbol(c: char) {
    c == '@' || c == '$' || c == '!' || c == '%' || c == '*' || c == '?' || c == '&'
  }

  /** The body class `[A-Za-z\d@$!%*?&]`. */
  predicate IsAllowed(c: char) {
    IsLower(c) || IsUpper(c) || IsDigit(c) || IsSymbol(c)
  }

  /** The minimum length `{8,}`. */
  const MinLength: nat := 8

  /** The four required character kinds, one lookahead each. */
  datatype CharKind = Lower | Upper | Digit | Symbol

  predicate OfKind(k: CharKind, c: char) {
    match k
    case Lower => IsLower(c)
    case Upper => IsUpper(c)
    case Digit => IsDigit(c)
    case Symbol => IsSymbol(c)
  }

  /** No character of `s` before index `i` is a newline (Python's `.` stops at "\n"). */
  predicate NoNewlineBefore(s: string, i: int)
    requires 0 <= i <= |s|
  {
    forall j :: 0 <= j < i ==> s[j] != '\n'
  }

  /**
   * The lookahead `(?=.*[K])` tried at position 0: some character of kind `k`
   * is reachable from the start by `.*`, that is, without crossing a newline.
   */
  predicate PyLookahead(s: string, k: CharKind) {
    exists i :: 0 <= i < |s| && OfKind(k, s[i]) && NoNewlineBefore(s, i)
  }

  /** Python's `$` (no MULTILINE flag): at the end, or just before a final "\n". */
  predicate PyDollar(s: string, k: int) {
    k == |s| || (k == |s| - 1 && 0 <= k && s[k] == '\n')
  }

  /** Every character of `s` before index `k` belongs to the body class. */
  predicate AllowedPrefix(s: string, k: int)
    requires 0 <= k <= |s|
  {
    forall j :: 0 <= j < k ==> IsAllowed(s[j])
  }

  /** `[A-Za-z\d@$!%*?&]{8,}$` anchored at position 0: some run of at least 8 body characters ends where `$` holds. */
  predicate PyBody(s: string) {
    exists k :: MinLength <= k <= |s| && AllowedPrefix(s, k) && PyDollar(s, k)
  }

  /** `is_strong_password(password)` is truthy: `re.match` finds a match at position 0. */
  predicate IsStrongPassword(password: string) {
    PyLookahead(password, Lower) && PyLookahead(password, Upper) &&
    PyLookahead(password, Digit) && PyLookahead(password, Symbol) &&
    PyBody(password)
  }

  /** `s` contains a character of kind `k`. */
  predicate Contains(s: string, k: CharKind) {
    exists i :: 0 <= i < |s| && OfKind(k, s[i])
  }

  /**
   * The rule as the error message states it: at least 8 characters, only
   * letters, digits and `@$!%*?&`, and at least one of each kind.
   */
  predicate StrongCore(t: string) {
    |t| >= MinLength &&
    (forall j :: 0 <= j < |t| ==> IsAllowed(t[j])) &&
    Contains(t, Lower) && Contains(t, Upper) && Contains(t, Digit) && Contains(t, Symbol)
  }

  /** A lookahead over a string without newlines is plain containment. */
  lemma {:induction false} LookaheadWithoutNewline(s: string, k: CharKind)
    requires forall j :: 0 <= j < |s| ==> s[j] != '\n'
    ensures PyLookahead(s, k) <==> Contains(s, k)
  {
    if Contains(s, k) {
      var i :| 0 <= i < |s| && OfKind(k, s[i]);
      assert NoNewlineBefore(s, i);
    }
  }

  /** Appending a final newline changes no lookahead over a newline-free string. */
  lemma {:induction false} LookaheadTrailingNewline(t: string, k: CharKind)
    requires forall j :: 0 <= j < |t| ==> t[j] != '\n'
    ensures PyLookahead(t + "\n", k) <==> Contains(t, k)
  {
    var s := t + "\n";
    if PyLookahead(s, k) {
      var i :| 0 <= i < |s| && OfKind(k, s[i]) && NoNewlineBefore(s, i);
      assert s[|t|] == '\n';
      assert t[i] == s[i];
    }
    if Contains(t, k) {
      var i :| 0 <= i < |t| && OfKind(k, t[i]);
      assert s[i] == t[i];
      assert NoNewlineBefore(s, i);
    }
  }

  /**
   * The exact set `is_strong_password` accepts: a string meeting the stated
   * rule, or such a string followed by exactly one "\n" (because `$` also
   * matches before a final newline).
   */
  lemma {:induction false} StrongPasswordCharacterization(s: string)
    ensures IsStrongPassword(s) <==>
      StrongCore(s) || (|s| > 0 && s[|s| - 1] == '\n' && StrongCore(s[..|s| - 1]))
  {
    if PyBody(s) {
      var k :| MinLength <= k <= |s| && AllowedPrefix(s, k) && PyDollar(s, k);
      var t := s[..k];
      assert forall j :: 0 <= j < |t| ==> t[j] != '\n' by {
        forall j | 0 <= j < |t| ensures t[j] != '\n' { assert IsAllowed(s[j]); }
      }
      if k == |s| {
        assert t == s;
        LookaheadWithoutNewline(s, Lower);
        LookaheadWithoutNewline(s, Upper);
        LookaheadWithoutNewline(s, Digit);
        LookaheadWithoutNewline(s, Symbol);
        assert IsStrongPassword(s) <==> StrongCore(s);
        assert !(|s| > 0 && s[|s| - 1] == '\n');
      } else {
        assert s == t + "\n";
        assert s[..|s| - 1] == t;
        LookaheadTrailingNewline(t, Lower);
        LookaheadTrailingNewline(t, Upper);
        LookaheadTrailingNewline(t, Digit);
        LookaheadTrailingNewline(t, Symbol);
        assert IsStrongPassword(s) <==> StrongCore(t);
        assert !StrongCore(s) by { assert !IsAllowed(s[|s| - 1]); }
      }
    } else {
      if StrongCore(s) {
        assert AllowedPrefix(s, |s|) && PyDollar(s, |s|);
      }
      if |s| > 0 && s[|s| - 1] == '\n' && StrongCore(s[..|s| - 1]) {
        var k := |s| - 1;
        assert AllowedPrefix(s, k) by {
          forall j | 0 <= j < k ensures IsAllowed(s[j]) { assert s[j] == s[..k][j]; }
        }
        assert PyDollar(s, k);
      }
    }
  }

  /** Any string shorter than 8 characters is rejected. */
  lemma ShortPasswordsAreWeak(s: string)
    requires |s| < MinLength
    ensures !IsStrongPassword(s)
  {
  }

  /** A string meeting the stated rule is accepted, and so is that string followed by one "\n". */
  lemma {:induction false} StrongCoreAccepted(t: string)
    requires StrongCore(t)
    ensures IsStrongPassword(t)
    ensures IsStrongPassword(t + "\n")
  {
    StrongPasswordCharacterization(t);
    var s := t + "\n";
    assert s[..|s| - 1] == t;
    StrongPasswordCharacterization(s);
  }

  /** "Abcdef1!" meets the stated rule. */
  lemma ExampleMeetsRule()
    ensures StrongCore("Abcdef1!")
  {
    var t := "Abcdef1!";
    forall j | 0 <= j < |t| ensures IsAllowed(t[j]) {
      if j < 6 { assert IsLower(t[j]) || IsUpper(t[j]); }
      else if j == 6 { assert IsDigit(t[j]); }
      else { assert IsSymbol(t[j]); }
    }
    assert OfKind(Lower, t[1]) && OfKind(Upper, t[0]) && OfKind(Digit, t[6]) && OfKind(Symbol, t[7]);
  }

  /** The newline quirk on a concrete input: "Abcdef1!" followed by "\n" is accepted, though "\n" is not an allowed character. */
  lemma TrailingNewlineAccepted()
    ensures IsStrongPassword("Abcdef1!\n")
    ensures !StrongCore("Abcdef1!\n")
  {
    ExampleMeetsRule();
    StrongCoreAccepted("Abcdef1!");
    assert "Abcdef1!" + "\n" == "Abcdef1!\n";
    assert !IsAllowed("Abcdef1!\n"[8]);
  }
}
