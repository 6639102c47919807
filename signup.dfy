/**
 * The admin sign-up form: its field updates, the ordered validation whose
 * first failing check names the error shown, the e-mail pattern
 * `^[^\s@]+@[^\s@]+\.[^\s@]+$`, and the payload sent once the form is valid.
 */
module Signup {
  import opened Wrappers
  import opened Text

  datatype Form = Form(name: string, email: string, password: string, confirmPassword: string)

  /** The form together with the error line shown under it ("" when none). */
  datatype SignupState = SignupState(form: Form, error: string)

  const NameRequired := "Name is required"
  const EmailRequired := "Email is required"
  const EmailInvalid := "Please enter a valid email address"
  const PasswordTooShort := "Password must be at least 6 characters long"
  const PasswordMismatch := "Passwords do not match"
  const MinPasswordLength := 6

  // ---------------------------------------------------------------------
  // Field updates

  /** Reading a form field by its input's `name` attribute; other names are not fields of the form. */
  function Field(form: Form, field: string): Option<string>
  {
    if field == "name" then Some(form.name)
    else if field == "email" then Some(form.email)
    else if field == "password" then Some(form.password)
    else if field == "confirmPassword" then Some(form.confirmPassword)
    else None
  }

  /**
   * `handleChange`: the input named `field` takes `value`, every other field
   * keeps its value, and the error line is cleared.
   */
  function HandleChange(state: SignupState, field: string, value: string): (r: SignupState)
    ensures r.error == ""
    ensures forall f :: Field(r.form, f) == if f == field && Field(state.form, f).Some? then Some(value) else Field(state.form, f)
  {
    var form := state.form;
    var updated :=
      if field == "name" then form.(name := value)
      else if field == "email" then form.(email := value)
      else if field == "password" then form.(password := value)
      else if field == "confirmPassword" then form.(confirmPassword := value)
      else form;
    SignupState(updated, "")
  }

  /** Typing into one field twice keeps only the second value. */
  lemma LastChangeWins(state: SignupState, field: string, v1: string, v2: string)
    ensures HandleChange(HandleChange(state, field, v1), field, v2) == HandleChange(state, field, v2)
  {
    var a, b := HandleChange(HandleChange(state, field, v1), field, v2), HandleChange(state, field, v2);
    FieldsDetermineForm(a.form, b.form);
  }

  /** Changes to two different fields can be made in either order. */
  lemma ChangesCommute(state: SignupState, f1: string, v1: string, f2: string, v2: string)
    requires f1 != f2
    ensures HandleChange(HandleChange(state, f1, v1), f2, v2) == HandleChange(HandleChange(state, f2, v2), f1, v1)
  {
    var a, b := HandleChange(HandleChange(state, f1, v1), f2, v2), HandleChange(HandleChange(state, f2, v2), f1, v1);
    FieldsDetermineForm(a.form, b.form);
  }

  lemma FieldsDetermineForm(a: Form, b: Form)
    requires forall f :: Field(a, f) == Field(b, f)
    ensures a == b
  {
    assert Field(a, "name") == Field(b, "name");
    assert Field(a, "email") == Field(b, "email");
    assert Field(a, "password") == Field(b, "password");
    assert Field(a, "confirmPassword") == Field(b, "confirmPassword");
  }

  // ---------------------------------------------------------------------
  // The e-mail pattern

  /** `[^\s@]`: neither white space nor an at sign. */
  predicate EmailChar(c: char)
  {
    !IsSpace(c) && c != '@'
  }

  /** A string that `[^\s@]*` matches. */
  predicate Plain(s: string)
  {
    forall i :: 0 <= i < |s| ==> EmailChar(s[i])
  }

  /** `e` matches the pattern with its `@` at index `i` and the escaped `.` at index `j`. */
  predicate PatternAt(e: string, i: int, j: int)
  {
    0 < i && i + 1 < j && j + 1 < |e| && e[i] == '@' && e[j] == '.'
    && Plain(e[..i]) && Plain(e[i + 1..j]) && Plain(e[j + 1..])
  }

  /** `/^[^\s@]+@[^\s@]+\.[^\s@]+$/.test(e)`: three non-empty plain runs joined by `@` and `.`. */
  ghost predicate MatchesEmailPattern(e: string)
  {
    exists i, j :: PatternAt(e, i, j)
  }

  /** The domain part holds a dot that is neither its first nor its last character. */
  predicate HasInnerDot(d: string)
  {
    |d| >= 3 && '.' in d[1..|d| - 1]
  }

  /**
   * The e-mail test read as a shape: no white space, exactly one `@`, not
   * at the start, and a dot inside what follows it.
   */
  predicate ValidEmail(e: string)
  {
    NoSpace(e) &&
    match IndexOf(e, "@")
    case None => false
    case Some(i) => i > 0 && '@' !in e[i + 1..] && HasInnerDot(e[i + 1..])
  }

  /** The shape reading and the pattern accept exactly the same strings. */
  lemma ValidEmailIffPattern(e: string)
    ensures ValidEmail(e) <==> MatchesEmailPattern(e)
  {
    if ValidEmail(e) {
      ValidEmailMatches(e);
    }
    if MatchesEmailPattern(e) {
      var i, j :| PatternAt(e, i, j);
      PatternIsValidEmail(e, i, j);
    }
  }

  lemma ValidEmailMatches(e: string)
    requires ValidEmail(e)
    ensures MatchesEmailPattern(e)
  {
    var i := IndexOf(e, "@").value;
    var d := e[i + 1..];
    var k :| 0 <= k < |d| - 2 && d[1..|d| - 1][k] == '.';
    var j := i + 2 + k;
    assert e[i] == e[i..i + 1][0];
    forall m | 0 <= m < i ensures EmailChar(e[..i][m]) {
      assert !OccursAt(e, "@", m);
      assert e[m..m + 1] == [e[m]];
    }
    var b, c := e[i + 1..j], e[j + 1..];
    forall m | 0 <= m < |b| ensures EmailChar(b[m]) {
      assert b[m] == d[m];
    }
    forall m | 0 <= m < |c| ensures EmailChar(c[m]) {
      assert c[m] == d[j - i + m];
    }
    assert PatternAt(e, i, j);
  }

  lemma PatternIsValidEmail(e: string, i: int, j: int)
    requires PatternAt(e, i, j)
    ensures ValidEmail(e)
  {
    forall m | 0 <= m < |e| ensures !IsSpace(e[m]) {
      if m < i {
        assert e[m] == e[..i][m];
      } else if i < m < j {
        assert e[m] == e[i + 1..j][m - i - 1];
      } else if j < m {
        assert e[m] == e[j + 1..][m - j - 1];
      }
    }
    assert e == e[..i] + "@" + e[i + 1..];
    IndexOfAfterPrefix(e[..i], "@", e[i + 1..]);
    var d := e[i + 1..];
    forall m | 0 <= m < |d| ensures d[m] != '@' {
      if m < j - i - 1 {
        assert d[m] == e[i + 1..j][m];
      } else if j - i - 1 < m {
        assert d[m] == e[j + 1..][m - (j - i)];
      }
    }
    assert d[1..|d| - 1][j - i - 2] == '.';
  }

  // ---------------------------------------------------------------------
  // Validation and submission

  /**
   * `validateForm`: the message of the first failing check, in the order
   * name, e-mail present, e-mail shape, password length, confirmation;
   * `None` when every check passes.
   */
  function ValidateForm(form: Form): (r: Option<string>)
    ensures r.None? <==>
      !IsBlank(form.name) && !IsBlank(form.email) && ValidEmail(form.email)
      && |form.password| >= MinPasswordLength && form.password == form.confirmPassword
    ensures IsBlank(form.name) ==> r == Some(NameRequired)
    ensures !IsBlank(form.name) && IsBlank(form.email) ==> r == Some(EmailRequired)
    ensures !IsBlank(form.name) && !IsBlank(form.email) && !ValidEmail(form.email) ==> r == Some(EmailInvalid)
    ensures !IsBlank(form.name) && ValidEmail(form.email) && |form.password| < MinPasswordLength ==>
      r == Some(PasswordTooShort)
    ensures (!IsBlank(form.name) && ValidEmail(form.email) && |form.password| >= MinPasswordLength
             && form.password != form.confirmPassword) ==> r == Some(PasswordMismatch)
  {
    TrimEmptyIffBlank(form.name);
    TrimEmptyIffBlank(form.email);
    if Trim(form.name) == "" then Some(NameRequired)
    else if Trim(form.email) == "" then Some(EmailRequired)
    else if !ValidEmail(form.email) then Some(EmailInvalid)
    else if |form.password| < MinPasswordLength then Some(PasswordTooShort)
    else if form.password != form.confirmPassword then Some(PasswordMismatch)
    else None
  }

  /** A well-formed e-mail address is never blank, so its emptiness check never decides anything. */
  lemma ValidEmailNotBlank(e: string)
    requires ValidEmail(e)
    ensures !IsBlank(e) && |e| >= 5
  {
    var i := IndexOf(e, "@").value;
    assert e[i] == e[i..i + 1][0];
    assert |e[i + 1..]| >= 3;
  }

  /** The body posted to `/api/admin/auth/signup`. */
  datatype SignupRequest = SignupRequest(name: string, email: string, password: string)

  /** The request `handleSubmit` sends: none when validation fails, else trimmed name and e-mail with the password as typed. */
  function SubmitRequest(form: Form): (r: Result<SignupRequest, string>)
    ensures r.Err? <==> ValidateForm(form).Some?
    ensures r.Err? ==> r.error == ValidateForm(form).value
    ensures r.Ok? ==> r.value == SignupRequest(Trim(form.name), Trim(form.email), form.password)
  {
    match ValidateForm(form)
    case Some(message) => Err(message)
    case None => Ok(SignupRequest(Trim(form.name), Trim(form.email), form.password))
  }

  /**
   * What reaches the server from a valid form: a name with no surrounding
   * white space and not empty, the e-mail exactly as typed (the pattern
   * already excludes white space), and a password of at least six characters
   * equal to its confirmation.
   */
  lemma SubmittedRequestIsClean(form: Form)
    requires SubmitRequest(form).Ok?
    ensures var req := SubmitRequest(form).value;
      && req.name != "" && !IsSpace(req.name[0]) && !IsSpace(req.name[|req.name| - 1])
      && req.email == form.email && ValidEmail(req.email)
      && |req.password| >= MinPasswordLength && req.password == form.confirmPassword
  {
    TrimEmptyIffBlank(form.name);
    TrimOfNoSpace(form.email);
  }

  /** The server's answer to the sign-up request. */
  datatype SignupReply = Created | Rejected(error: string) | NetworkError

  /** Where the page goes after submitting: to the login page, or back to the form with an error. */
  datatype SubmitOutcome = GoToLogin | ShowError(message: string)

  const FailedToCreate := "Failed to create account"
  const NetworkFailure := "Network error. Please try again."

  /**
   * `handleSubmit`: an invalid form shows its validation message and sends
   * nothing; otherwise a created account goes to the login page, a rejection
   * shows the server's error (or a fixed message when it gives none), and a
   * failed request shows the network message.
   */
  function HandleSubmit(form: Form, reply: SignupReply): (r: SubmitOutcome)
    ensures ValidateForm(form).Some? ==> r == ShowError(ValidateForm(form).value)
    ensures r == GoToLogin <==> ValidateForm(form).None? && reply == Created
    ensures ValidateForm(form).None? && reply.Rejected? ==>
      r == ShowError(if reply.error != "" then reply.error else FailedToCreate)
    ensures ValidateForm(form).None? && reply.NetworkError? ==> r == ShowError(NetworkFailure)
  {
    match SubmitRequest(form)
    case Err(message) => ShowError(message)
    case Ok(_) =>
      match reply
      case Created => GoToLogin
      case Rejected(error) => ShowError(if error != "" then error else FailedToCreate)
      case NetworkError => ShowError(NetworkFailure)
  }
}
