/**
 * The user request schemas: the password policy and the bodies of the
 * register, sign-in and change-password requests.
 *
 * The password policy is a regular expression made of five lookaheads
 * anchored at the start of the input followed by `.{8,}$`. It is stated
 * here twice: `RegexAccepts` reads the expression construct by construct,
 * and `PasswordOk` restates it as a length bound plus character-class
 * conditions; `RegexIffPolicy` proves the two agree. A `char` is a
 * Unicode scalar value; the JavaScript string counts UTF-16 code units,
 * and the two agree on characters of the Basic Multilingual Plane.
 */
module UserSchemas {
  import opened Wrappers
  import opened Validation

  /** The characters the regex's `.` does not match (no `s` flag is set). */
  predicate IsLineTerminator(c: char)
  {
    c == '\n' || c == '\r' || c == '\U{2028}' || c == '\U{2029}'
  }

  predicate IsDigit(c: char) { '0' <= c <= '9' }
  predicate IsLower(c: char) { 'a' <= c <= 'z' }
  predicate IsUpper(c: char) { 'A' <= c <= 'Z' }
  predicate IsLetter(c: char) { IsLower(c) || IsUpper(c) }

  /** The class `[@$!%*?&,.<>^|+_-]`: `^` not in first place and `-` in last place are literal. */
  predicate IsSpecial(c: char)
  {
    c in "@$!%*?&,.<>^|+_-"
  }

  predicate NoLineTerminator(p: string)
  {
    forall i | 0 <= i < |p| :: !IsLineTerminator(p[i])
  }

  predicate Contains(p: string, cls: char -> bool)
  {
    exists i | 0 <= i < |p| :: cls(p[i])
  }

  /**
   * `(?=.*X)` tried at the start of the input: `.*` cannot cross a line
   * terminator, so some character of class X must occur before the first one.
   */
  predicate LookaheadAtStart(p: string, cls: char -> bool)
  {
    exists i | 0 <= i < |p| :: cls(p[i]) && NoLineTerminator(p[..i])
  }

  /** `.{8,}$` from the start of the input: at least eight characters, none a line terminator. */
  predicate BodyAtStart(p: string)
  {
    |p| >= 8 && NoLineTerminator(p)
  }

  /** The source's password regex, read construct by construct. */
  predicate RegexAccepts(p: string)
  {
    && LookaheadAtStart(p, IsDigit)
    && LookaheadAtStart(p, IsLower)
    && LookaheadAtStart(p, IsUpper)
    && LookaheadAtStart(p, IsSpecial)
    && LookaheadAtStart(p, IsLetter)
    && BodyAtStart(p)
  }

  /** The same regex without its `(?=.*[a-zA-Z])` lookahead. */
  predicate RegexWithoutLetterAccepts(p: string)
  {
    && LookaheadAtStart(p, IsDigit)
    && LookaheadAtStart(p, IsLower)
    && LookaheadAtStart(p, IsUpper)
    && LookaheadAtStart(p, IsSpecial)
    && BodyAtStart(p)
  }

  /** The password policy: minimum 8 characters, a digit, a lowercase and an uppercase letter, and a special character. */
  predicate PasswordOk(p: string)
  {
    && |p| >= 8
    && NoLineTerminator(p)
    && Contains(p, IsDigit)
    && Contains(p, IsLower)
    && Contains(p, IsUpper)
    && Contains(p, IsSpecial)
  }

  /** On a line without terminators, a lookahead at the start is just "the class occurs". */
  lemma LookaheadOnOneLine(p: string, cls: char -> bool)
    requires NoLineTerminator(p)
    ensures LookaheadAtStart(p, cls) <==> Contains(p, cls)
  {
  }

  /** The regex accepts exactly the passwords the policy describes. */
  lemma RegexIffPolicy(p: string)
    ensures RegexAccepts(p) <==> PasswordOk(p)
  {
    if NoLineTerminator(p) {
      LookaheadOnOneLine(p, IsDigit);
      LookaheadOnOneLine(p, IsLower);
      LookaheadOnOneLine(p, IsUpper);
      LookaheadOnOneLine(p, IsSpecial);
      LookaheadOnOneLine(p, IsLetter);
    }
  }

  /** The letter lookahead is implied by the lowercase one: dropping it accepts the same passwords. */
  lemma LetterLookaheadRedundant(p: string)
    ensures RegexAccepts(p) <==> RegexWithoutLetterAccepts(p)
  {
  }

  /** An accepted password stays accepted when characters other than line terminators are appended. */
  lemma {:induction false} PasswordExtends(p: string, q: string)
    requires PasswordOk(p)
    requires NoLineTerminator(q)
    ensures PasswordOk(p + q)
  {
    var pq := p + q;
    forall i | 0 <= i < |pq|
      ensures !IsLineTerminator(pq[i])
    {
      if i < |p| { assert pq[i] == p[i]; } else { assert pq[i] == q[i - |p|]; }
    }
    var d :| 0 <= d < |p| && IsDigit(p[d]);
    assert pq[d] == p[d];
    var l :| 0 <= l < |p| && IsLower(p[l]);
    assert pq[l] == p[l];
    var u :| 0 <= u < |p| && IsUpper(p[u]);
    assert pq[u] == p[u];
    var s :| 0 <= s < |p| && IsSpecial(p[s]);
    assert pq[s] == p[s];
  }

  /**
   * Runs the regex over a password in one left-to-right pass, as a regex
   * engine would settle the four lookaheads and the body together.
   */
  method CheckPassword(p: string) returns (ok: bool)
    ensures ok <==> RegexAccepts(p)
    ensures ok ==> |p| >= 8 && NoLineTerminator(p)
  {
    var digit, lower, upper, special := false, false, false, false;
    var i := 0;
    while i < |p|
      invariant 0 <= i <= |p|
      invariant NoLineTerminator(p[..i])
      invariant digit <==> Contains(p[..i], IsDigit)
      invariant lower <==> Contains(p[..i], IsLower)
      invariant upper <==> Contains(p[..i], IsUpper)
      invariant special <==> Contains(p[..i], IsSpecial)
    {
      var c := p[i];
      if IsLineTerminator(c) {
        assert !NoLineTerminator(p);
        RegexIffPolicy(p);
        return false;
      }
      assert p[..i + 1] == p[..i] + [c];
      digit := digit || IsDigit(c);
      lower := lower || IsLower(c);
      upper := upper || IsUpper(c);
      special := special || IsSpecial(c);
      i := i + 1;
    }
    assert p[..i] == p;
    RegexIffPolicy(p);
    ok := |p| >= 8 && digit && lower && upper && special;
  }

  /** The issues of a required string checked against the password policy, with the schema's message. */
  function PasswordIssues(path: string, f: Field, message: string): (r: seq<Issue>)
    ensures r == [] <==> f.Text? && PasswordOk(f.s)
  {
    if !f.Text? then TypeIssues(path, f)
    else if PasswordOk(f.s) then []
    else [Issue(path, Mismatch(message))]
  }

  /** The issues of a required string checked by the library's e-mail test, given as `isEmail`. */
  function EmailIssues(path: string, f: Field, isEmail: string -> bool): (r: seq<Issue>)
    ensures r == [] <==> f.Text? && isEmail(f.s)
  {
    if !f.Text? then TypeIssues(path, f)
    else if isEmail(f.s) then []
    else [Issue(path, InvalidEmail)]
  }

  /** The message the register schema attaches to a rejected password. */
  const PasswordMessage: string :=
    "password need to be : Minimum 8 characters, at least one uppercase letter, one lowercase letter, one number and one special character."

  datatype RegisterBody = RegisterBody(email: Field, password: Field, firstname: Field, lastname: Field, birthdate: Field)
  datatype Registration = Registration(email: string, password: string, firstname: string, lastname: string, birthdate: string)

  predicate NameOk(s: string) { 2 <= |s| <= 30 }

  /** Validates a registration body; every field is required and every rejected field is reported. */
  function ValidateRegister(b: RegisterBody, isEmail: string -> bool): (r: Result<Registration, seq<Issue>>)
    ensures r.Ok? <==>
              && b.email.Text? && isEmail(b.email.s)
              && b.password.Text? && PasswordOk(b.password.s)
              && b.firstname.Text? && NameOk(b.firstname.s)
              && b.lastname.Text? && NameOk(b.lastname.s)
              && b.birthdate.Text? && |b.birthdate.s| == 10
    ensures r.Ok? ==> r.value == Registration(b.email.s, b.password.s, b.firstname.s, b.lastname.s, b.birthdate.s)
    ensures r.Err? ==> r.error != []
    ensures b.password.Text? && !PasswordOk(b.password.s) ==>
              r.Err? && Issue("password", Mismatch(PasswordMessage)) in r.error
  {
    var issues :=
      EmailIssues("email", b.email, isEmail)
      + PasswordIssues("password", b.password, PasswordMessage)
      + LengthIssues("firstname", b.firstname, 2, 30)
      + LengthIssues("lastname", b.lastname, 2, 30)
      + LengthIssues("birthdate", b.birthdate, 10, 10);
    if issues == [] then Ok(Registration(b.email.s, b.password.s, b.firstname.s, b.lastname.s, b.birthdate.s))
    else Err(issues)
  }

  datatype SignInBody = SignInBody(email: Field, password: Field)

  /** Validates a sign-in body: an e-mail and a password meeting the same policy as at registration. */
  function ValidateSignIn(b: SignInBody, isEmail: string -> bool): (r: Result<(string, string), seq<Issue>>)
    ensures r.Ok? <==> b.email.Text? && isEmail(b.email.s) && b.password.Text? && PasswordOk(b.password.s)
    ensures r.Ok? ==> r.value == (b.email.s, b.password.s)
    ensures r.Err? ==> r.error != []
  {
    var issues := EmailIssues("email", b.email, isEmail) + PasswordIssues("password", b.password, DefaultMismatch);
    if issues == [] then Ok((b.email.s, b.password.s)) else Err(issues)
  }

  datatype ChangePasswordBody = ChangePasswordBody(oldPassword: Field, newPassword: Field)

  /** Validates a change-password body: both the old and the new password must meet the policy. */
  function ValidateChangePassword(b: ChangePasswordBody): (r: Result<(string, string), seq<Issue>>)
    ensures r.Ok? <==> b.oldPassword.Text? && PasswordOk(b.oldPassword.s) && b.newPassword.Text? && PasswordOk(b.newPassword.s)
    ensures r.Ok? ==> r.value == (b.oldPassword.s, b.newPassword.s)
    ensures r.Err? ==> r.error != []
  {
    var issues := PasswordIssues("oldPassword", b.oldPassword, DefaultMismatch)
                  + PasswordIssues("newPassword", b.newPassword, DefaultMismatch);
    if issues == [] then Ok((b.oldPassword.s, b.newPassword.s)) else Err(issues)
  }
}
