/** The login form (src/app/login/page.tsx): both fields are validated on
    submit, each setting its own error text, and the credentials are posted
    only when both pass. */
module LoginPage {
  import opened Common
  import ApiLogin
  import Auth
  import Store

  // ----- The email pattern ^[^\s@]+@[^\s@]+\.[^\s@]+$

  /** A run the class `[^\s@]+` matches: non-empty, no whitespace, no '@'. */
  predicate Segment(s: string) {
    |s| > 0 && forall k :: 0 <= k < |s| ==> !IsWhitespace(s[k]) && s[k] != '@'
  }

  /** The pattern as the regular expression reads it: some '@' at `i` and
      some '.' at `j` split the string into three such runs. */
  predicate MatchesEmailPattern(s: string) {
    exists i, j :: 0 < i < j < |s| - 1 && s[i] == '@' && s[j] == '.'
      && Segment(s[..i]) && Segment(s[i + 1..j]) && Segment(s[j + 1..])
  }

  predicate NoWhitespace(s: string) {
    forall k :: 0 <= k < |s| ==> !IsWhitespace(s[k])
  }

  predicate IsAt(c: char) { c == '@' }

  /** A '.' with at least one character on each side. */
  predicate InnerDot(d: string) {
    exists k :: 0 < k < |d| - 1 && d[k] == '.'
  }

  /** The same pattern stated by its shape: no whitespace, exactly one '@',
      not first, and after it a '.' that is neither first nor last. */
  predicate EmailShaped(s: string) {
    && NoWhitespace(s)
    && match FindFirst(s, IsAt)
       case None => false
       case Some(i) => i > 0 && (forall k :: i < k < |s| ==> s[k] != '@') && InnerDot(s[i + 1..])
  }

  /** Both readings of the pattern accept the same strings. */
  lemma EmailPatternIffShape(s: string)
    ensures MatchesEmailPattern(s) <==> EmailShaped(s)
  {
    if MatchesEmailPattern(s) {
      var i, j :| 0 < i < j < |s| - 1 && s[i] == '@' && s[j] == '.'
        && Segment(s[..i]) && Segment(s[i + 1..j]) && Segment(s[j + 1..]);
      PatternImpliesShape(s, i, j);
    }
    if EmailShaped(s) {
      ShapeImpliesPattern(s);
    }
  }

  /** The characters of three runs joined by '@' and '.'. */
  lemma PatternChars(s: string, i: nat, j: nat)
    requires 0 < i < j < |s| - 1 && s[i] == '@' && s[j] == '.'
    requires Segment(s[..i]) && Segment(s[i + 1..j]) && Segment(s[j + 1..])
    ensures forall k :: 0 <= k < |s| ==> !IsWhitespace(s[k])
    ensures forall k :: 0 <= k < |s| && k != i ==> s[k] != '@'
  {
    forall k | 0 <= k < |s| ensures !IsWhitespace(s[k]) && (k != i ==> s[k] != '@') {
      if k < i {
        assert s[k] == s[..i][k];
      } else if i < k < j {
        assert s[k] == s[i + 1..j][k - i - 1];
      } else if j < k {
        assert s[k] == s[j + 1..][k - j - 1];
      }
    }
  }

  lemma PatternImpliesShape(s: string, i: nat, j: nat)
    requires 0 < i < j < |s| - 1 && s[i] == '@' && s[j] == '.'
    requires Segment(s[..i]) && Segment(s[i + 1..j]) && Segment(s[j + 1..])
    ensures EmailShaped(s)
  {
    PatternChars(s, i, j);
    var f := FindFirst(s, IsAt);
    assert IsAt(s[i]);
    assert f.Some? && f.value <= i;
    assert IsAt(s[f.value]);
    assert f.value == i;
    assert s[i + 1..][j - i - 1] == '.';
  }

  lemma ShapeImpliesPattern(s: string)
    requires EmailShaped(s)
    ensures MatchesEmailPattern(s)
  {
    var i := FindFirst(s, IsAt).value;
    var d := s[i + 1..];
    var k :| 0 < k < |d| - 1 && d[k] == '.';
    var j := i + 1 + k;
    assert s[j] == '.';
    forall m | 0 <= m < i ensures !IsWhitespace(s[..i][m]) && s[..i][m] != '@' {
      assert !IsAt(s[m]);
    }
    var mid, tail := s[i + 1..j], s[j + 1..];
    forall m | 0 <= m < |mid| ensures !IsWhitespace(mid[m]) && mid[m] != '@' {
      assert mid[m] == s[i + 1 + m];
    }
    forall m | 0 <= m < |tail| ensures !IsWhitespace(tail[m]) && tail[m] != '@' {
      assert tail[m] == s[j + 1 + m];
    }
    assert Segment(s[..i]) && Segment(s[i + 1..j]) && Segment(s[j + 1..]);
  }

  // ----- Validators

  const EmailRequiredMessage := "El correo electrónico es requerido"
  const EmailInvalidMessage := "Ingresa un correo electrónico válido"
  const PasswordRequiredMessage := "La contraseña es requerida"
  const PasswordTooShortMessage := "La contraseña debe tener al menos 6 caracteres"
  const MinPasswordLength: nat := 6

  /** A validator's verdict and the error text it sets ("" when it passes). */
  datatype Check = Check(ok: bool, error: string)

  function ValidateEmail(email: string): (c: Check)
    ensures c.ok <==> email != "" && MatchesEmailPattern(email)
    ensures c.ok <==> c.error == ""
    ensures email == "" ==> c.error == EmailRequiredMessage
    ensures email != "" && !c.ok ==> c.error == EmailInvalidMessage
  {
    EmailPatternIffShape(email);
    if email == "" then Check(false, EmailRequiredMessage)
    else if !EmailShaped(email) then Check(false, EmailInvalidMessage)
    else Check(true, "")
  }

  function ValidatePassword(password: string): (c: Check)
    ensures c.ok <==> |password| >= MinPasswordLength
    ensures c.ok <==> c.error == ""
    ensures password == "" ==> c.error == PasswordRequiredMessage
    ensures 0 < |password| < MinPasswordLength ==> c.error == PasswordTooShortMessage
  {
    if password == "" then Check(false, PasswordRequiredMessage)
    else if |password| < MinPasswordLength then Check(false, PasswordTooShortMessage)
    else Check(true, "")
  }

  // ----- Submit

  /** The two error texts shown after a submit, and the request sent, if any. */
  datatype Submitted = Submitted(emailError: string, passwordError: string, request: Option<ApiLogin.LoginBody>)

  function HandleSubmit(email: string, password: string): (r: Submitted)
    ensures r.emailError == ValidateEmail(email).error
    ensures r.passwordError == ValidatePassword(password).error
    ensures r.request.Some? <==> ValidateEmail(email).ok && ValidatePassword(password).ok
    ensures r.request.Some? ==> r.request.value == ApiLogin.LoginBody(Some(email), Some(password))
  {
    var e := ValidateEmail(email);
    var p := ValidatePassword(password);
    Submitted(e.error, p.error,
              if e.ok && p.ok then Some(ApiLogin.LoginBody(Some(email), Some(password))) else None)
  }

  /** Both validators run: an invalid email does not hide the password's
      own error, and an invalid password does not hide the email's. */
  lemma BothValidatorsRun(email: string, password: string)
    ensures password == "" ==> HandleSubmit(email, password).passwordError == PasswordRequiredMessage
    ensures email == "" ==> HandleSubmit(email, password).emailError == EmailRequiredMessage
    ensures HandleSubmit(email, password).request.Some? <==>
              HandleSubmit(email, password).emailError == "" && HandleSubmit(email, password).passwordError == ""
  {
  }

  /** A request the form sends always carries both credentials, so the login
      endpoint never answers it with its 400. */
  lemma SubmittedRequestPassesPresenceCheck(email: string, password: string, users: seq<Store.User>, hash: string -> string)
    requires HandleSubmit(email, password).request.Some?
    ensures ApiLogin.LoginReplyFor(HandleSubmit(email, password).request, users, hash).status != 400
  {
  }

  const WelcomePath := "/eventos"
  const ConnectionErrorMessage := "No se pudo conectar al servidor. Intenta nuevamente."

  /** What the form does with the answer: go to the events on success,
      otherwise toast the server's message; a failed fetch toasts the
      connection notice. */
  datatype Reaction = Navigate(path: string) | ErrorToast(message: string)

  function React(answer: Option<Auth.LoginResult>): (r: Reaction)
    ensures r.Navigate? <==> answer.Some? && answer.value.success
    ensures answer.Some? && !answer.value.success ==> r == ErrorToast(answer.value.message)
    ensures answer.None? ==> r == ErrorToast(ConnectionErrorMessage)
  {
    match answer
    case None => ErrorToast(ConnectionErrorMessage)
    case Some(res) => if res.success then Navigate(WelcomePath) else ErrorToast(res.message)
  }
}
