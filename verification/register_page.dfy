/**
  The registration form: a password check (the confirmation must match,
  then the password must have at least six characters) guarding a call to
  the authentication context's `register`, and navigation to the dashboard
  on success.
 */
module RegisterPage {

  import opened Model
  import opened FakeDb
  import opened Auth

  datatype PasswordError = NoError | Mismatch | TooShort

  /** `validatePassword`: a mismatch is reported before a short password. */
  function ValidatePassword(password: string, confirm: string): (r: PasswordError)
    ensures r == NoError <==> password == confirm && |password| >= 6
    ensures r == Mismatch <==> password != confirm
    ensures r == TooShort <==> password == confirm && |password| < 6
  {
    if password != confirm then Mismatch
    else if |password| < 6 then TooShort
    else NoError
  }

  datatype RegisterForm = RegisterForm(name: string, email: string, password: string,
                                       confirm: string, role: Role)

  datatype SubmitResult = SubmitResult(session: Session, error: PasswordError, navigate: bool)

  /** `handleSubmit`: stop at a password error; otherwise register the user created `now`
      and go to the dashboard exactly when registration succeeded. */
  function HandleSubmit(s: Session, f: RegisterForm, now: int): (r: SubmitResult)
    ensures r.error == ValidatePassword(f.password, f.confirm)
    ensures r.error != NoError ==> r.session == s && !r.navigate
  {
    var err := ValidatePassword(f.password, f.confirm);
    if err != NoError then SubmitResult(s, err, false)
    else
      var step := Register(s, UserData(f.name, f.email, f.password, f.role, now));
      SubmitResult(step.session, NoError, step.ok)
  }

  /** The form leads to the dashboard exactly when the password is confirmed, at least six
      characters long and the email is not taken; then the new user is signed in with the
      form's email, password and role. */
  lemma SubmitNavigatesIff(s: Session, f: RegisterForm, now: int)
    ensures HandleSubmit(s, f, now).navigate <==>
            && f.password == f.confirm && |f.password| >= 6
            && forall i :: 0 <= i < |s.db.users| ==> s.db.users[i].email != f.email
    ensures HandleSubmit(s, f, now).navigate ==>
            var u := HandleSubmit(s, f, now).session.current;
            && u.Some? && u.value.email == f.email && u.value.password == f.password
            && u.value.role == f.role && u.value.createdAt == now
  {
  }

  /** A short or unconfirmed password never reaches the store. */
  lemma BadPasswordNeverRegisters(s: Session, f: RegisterForm, now: int)
    requires f.password != f.confirm || |f.password| < 6
    ensures HandleSubmit(s, f, now).session == s
  {
  }
}
