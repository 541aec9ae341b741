/**
 * The sign-up form of app/signup/page.tsx: the e-mail check
 * `/^[a-zA-Z0-9._%+-]+@[a-zA-Z0-9.-]+\.[a-zA-Z]{2,4}$/` and the order of the
 * checks in `handleSignup`.
 */
module Signup {
  import opened Wrappers
  import opened ListOps
  import JsString

  predicate IsLetter(c: char) { 'a' <= c <= 'z' || 'A' <= c <= 'Z' }

  /** `[a-zA-Z0-9._%+-]` */
  predicate IsLocalChar(c: char)
  {
    IsLetter(c) || JsString.IsDigit(c) || c == '.' || c == '_' || c == '%' || c == '+' || c == '-'
  }

  /** `[a-zA-Z0-9.-]` */
  predicate IsDomainChar(c: char)
  {
    IsLetter(c) || JsString.IsDigit(c) || c == '.' || c == '-'
  }

  /**
   * The regular expression's reading of `s` with the `@` at `at` and the last
   * `.` at `dot`: a non-empty local part, `@`, a non-empty domain, `.`, and
   * two to four letters up to the end of the string.
   */
  predicate SplitsAt(s: string, at: int, dot: int)
  {
    && 0 < at && at + 1 < dot && dot < |s| && 2 <= |s| - dot - 1 <= 4
    && (forall i :: 0 <= i < at ==> IsLocalChar(s[i]))
    && s[at] == '@'
    && (forall i :: at < i < dot ==> IsDomainChar(s[i]))
    && s[dot] == '.'
    && (forall i :: dot < i < |s| ==> IsLetter(s[i]))
  }

  /** The language of the regular expression. */
  ghost predicate MatchesEmailRegex(s: string)
  {
    exists at, dot :: SplitsAt(s, at, dot)
  }

  function IsAtSign(c: char): bool { c == '@' }

  /** The part after the `@` ends in `.` and `k` letters, and all before that is domain characters. */
  predicate EndsInTld(rest: string, k: nat)
  {
    && |rest| >= k + 2
    && (forall i :: |rest| - k <= i < |rest| ==> IsLetter(rest[i]))
    && rest[|rest| - k - 1] == '.'
    && (forall i :: 0 <= i < |rest| - k - 1 ==> IsDomainChar(rest[i]))
  }

  /** `validateEmail`, as a scan: find the `@`, check the local part, then the domain and its ending. */
  predicate ValidateEmail(s: string)
  {
    match FindIndex(s, IsAtSign)
    case None => false
    case Some(at) =>
      && at > 0
      && (forall i :: 0 <= i < at ==> IsLocalChar(s[i]))
      && (EndsInTld(s[at + 1..], 2) || EndsInTld(s[at + 1..], 3) || EndsInTld(s[at + 1..], 4))
  }

  /** What the scan accepts, the regular expression matches. */
  lemma ValidateEmailSound(s: string)
    requires ValidateEmail(s)
    ensures MatchesEmailRegex(s)
  {
    var at := FindIndex(s, IsAtSign).value;
    var rest := s[at + 1..];
    var k: nat := if EndsInTld(rest, 2) then 2 else if EndsInTld(rest, 3) then 3 else 4;
    assert EndsInTld(rest, k);
    var dot := |s| - k - 1;
    assert |rest| >= k + 2 && |rest| == |s| - at - 1;
    assert s[dot] == rest[dot - at - 1];
    assert forall i :: at < i < dot ==> s[i] == rest[i - at - 1];
    forall i | dot < i < |s|
      ensures IsLetter(s[i])
    {
      assert s[i] == rest[i - at - 1] && |rest| - k <= i - at - 1 < |rest|;
    }
    assert SplitsAt(s, at, dot);
  }

  /** What the regular expression matches, the scan accepts. */
  lemma ValidateEmailComplete(s: string, at: int, dot: int)
    requires SplitsAt(s, at, dot)
    ensures ValidateEmail(s)
  {
    assert IsAtSign(s[at]);
    var found := FindIndex(s, IsAtSign);
    assert found.Some?;
    assert found == Some(at);
    var rest := s[at + 1..];
    var k := |s| - dot - 1;
    assert forall i :: 0 <= i < |rest| ==> rest[i] == s[i + at + 1];
    assert EndsInTld(rest, k);
  }

  /** The scan accepts exactly the strings the regular expression matches. */
  lemma ValidateEmailMatchesRegex(s: string)
    ensures ValidateEmail(s) <==> MatchesEmailRegex(s)
  {
    if ValidateEmail(s) {
      ValidateEmailSound(s);
    }
    if MatchesEmailRegex(s) {
      var at, dot :| SplitsAt(s, at, dot);
      ValidateEmailComplete(s, at, dot);
    }
  }

  /** No character of the regular expression's three classes is an `@`. */
  lemma NoAtSignAround(s: string, at: int, dot: int)
    requires SplitsAt(s, at, dot)
    ensures '@' !in s[..at]
    ensures '@' !in s[at + 1..]
  {
    forall i | 0 <= i < at
      ensures s[i] != '@'
    {
      assert IsLocalChar(s[i]);
    }
    forall i | at < i < |s|
      ensures s[i] != '@'
    {
      if i < dot {
        assert IsDomainChar(s[i]);
      } else if i > dot {
        assert IsLetter(s[i]);
      }
    }
    var after := s[at + 1..];
    assert forall i :: 0 <= i < |after| ==> after[i] == s[i + at + 1];
  }

  /** An accepted address holds exactly one `@`. */
  lemma AcceptedHasOneAtSign(s: string)
    requires ValidateEmail(s)
    ensures multiset(s)['@'] == 1
  {
    ValidateEmailSound(s);
    var at, dot :| SplitsAt(s, at, dot);
    NoAtSignAround(s, at, dot);
    assert s == s[..at] + [s[at]] + s[at + 1..];
  }

  /** `s` ends with `.` followed by `k` letters. */
  predicate LetterSuffix(s: string, k: nat)
  {
    k + 1 <= |s| && s[|s| - k - 1] == '.' && forall i :: |s| - k <= i < |s| ==> IsLetter(s[i])
  }

  /** An accepted address holds no whitespace and ends with `.` and two to four letters. */
  lemma AcceptedShape(s: string)
    requires ValidateEmail(s)
    ensures forall i :: 0 <= i < |s| ==> !JsString.IsJsWhitespace(s[i])
    ensures exists k :: 2 <= k <= 4 && LetterSuffix(s, k)
  {
    ValidateEmailMatchesRegex(s);
    var at, dot :| SplitsAt(s, at, dot);
    assert LetterSuffix(s, |s| - dot - 1);
  }

  const InvalidEmailMessage := "Te rog introdu un email valid!"
  const PasswordMismatchMessage := "Parolele nu se potrivesc!"
  const DashboardRoute := "/dashboard"

  /** Where `handleSignup` stops. */
  datatype Verdict = InvalidEmail | PasswordMismatch | Registered

  /** `handleSignup`'s decision: the e-mail is checked before the passwords. */
  function Decide(email: string, password: string, confirmPassword: string): (r: Verdict)
    ensures r == InvalidEmail <==> !MatchesEmailRegex(email)
    ensures r == PasswordMismatch <==> MatchesEmailRegex(email) && password != confirmPassword
    ensures r == Registered <==> MatchesEmailRegex(email) && password == confirmPassword
  {
    ValidateEmailMatchesRegex(email);
    if !ValidateEmail(email) then InvalidEmail
    else if password != confirmPassword then PasswordMismatch
    else Registered
  }

  /** The sign-up form's state; `route` is where the router was sent, if anywhere. */
  class SignupPage {
    var username: string
    var email: string
    var password: string
    var confirmPassword: string
    var error: string
    var emailError: string
    var route: Option<string>

    constructor ()
      ensures email == "" && password == "" && confirmPassword == ""
      ensures error == "" && emailError == "" && route == None
    {
      username, email, password, confirmPassword := "", "", "", "";
      error, emailError, route := "", "", None;
    }

    method HandleSignup()
      modifies this`emailError, this`error, this`route
      ensures Decide(email, password, confirmPassword) == InvalidEmail ==>
        emailError == InvalidEmailMessage && error == old(error) && route == old(route)
      ensures Decide(email, password, confirmPassword) == PasswordMismatch ==>
        emailError == "" && error == PasswordMismatchMessage && route == old(route)
      ensures Decide(email, password, confirmPassword) == Registered ==>
        emailError == "" && error == old(error) && route == Some(DashboardRoute)
    {
      if !ValidateEmail(email) {
        emailError := InvalidEmailMessage;
        return;
      }
      emailError := "";
      if password != confirmPassword {
        error := PasswordMismatchMessage;
        return;
      }
      route := Some(DashboardRoute);
    }
  }
}
