/**
  The session kept by the authentication context: the store and the user
  currently signed in. Persisting the user in `localStorage` and the toasts
  are outside the model.
 */
module Auth {

  import opened Seqs
  import opened Model
  import opened FakeDb

  datatype Session = Session(db: Store, current: Option<User>)

  /** An operation's outcome: the session afterwards and the boolean the context returns. */
  datatype AuthStep = AuthStep(session: Session, ok: bool)

  /** `isAuthenticated: !!currentUser` */
  predicate IsAuthenticated(s: Session)
  {
    s.current.Some?
  }

  /** `isAuthenticated` follows the session: a successful sign-in or sign-up makes it true,
      sign-out makes it false, and a failed sign-in or sign-up leaves it as it was. */
  lemma AuthenticatedTracksSession(s: Session, email: string, password: string, data: UserData)
    ensures IsAuthenticated(SignIn(s, email, password).session) <==>
              SignIn(s, email, password).ok || IsAuthenticated(s)
    ensures IsAuthenticated(Register(s, data).session) <==> Register(s, data).ok || IsAuthenticated(s)
    ensures !IsAuthenticated(SignOut(s))
  {
  }

  /** `login`: sign in as the user the store matches on email and password; on a failed
      attempt nothing changes, not even a user already signed in. */
  function SignIn(s: Session, email: string, password: string): (r: AuthStep)
    ensures r.session.db == s.db
    ensures r.ok <==> exists i :: 0 <= i < |s.db.users| && s.db.users[i].email == email
                                                      && s.db.users[i].password == password
    ensures r.ok ==> r.session.current == FakeDb.Login(s.db, email, password)
    ensures !r.ok ==> r.session == s
  {
    match FakeDb.Login(s.db, email, password)
    case Some(u) => AuthStep(s.(current := Some(u)), true)
    case None => AuthStep(s, false)
  }

  /** `register`: refuse an email some user already has; otherwise create the user and
      sign in as them. */
  function Register(s: Session, data: UserData): (r: AuthStep)
    ensures r.ok <==> forall i :: 0 <= i < |s.db.users| ==> s.db.users[i].email != data.email
    ensures !r.ok ==> r.session == s
    ensures r.ok ==> r.session == Session(CreateUser(s.db, data).db, Some(CreateUser(s.db, data).result))
  {
    match FindUserByEmail(s.db, data.email)
    case Some(_) => AuthStep(s, false)
    case None =>
      var step := CreateUser(s.db, data);
      AuthStep(Session(step.db, Some(step.result)), true)
  }

  /** `logout` */
  function SignOut(s: Session): (r: Session)
    ensures !IsAuthenticated(r) && r.db == s.db
  {
    s.(current := None)
  }

  /** No two users share an email. */
  ghost predicate DistinctEmails(db: Store)
  {
    forall i, j :: 0 <= i < j < |db.users| ==> db.users[i].email != db.users[j].email
  }

  /** Registering through the context keeps emails distinct. */
  lemma RegisterKeepsEmailsDistinct(s: Session, data: UserData)
    requires DistinctEmails(s.db)
    ensures DistinctEmails(Register(s, data).session.db)
  {
  }

  /** The store's own `users.create` (and `auth.register`) does not check: called directly
      it records a second user with an email already in use. */
  lemma StoreCreateAllowsDuplicateEmail(db: Store, data: UserData)
    requires exists i :: 0 <= i < |db.users| && db.users[i].email == data.email
    ensures !DistinctEmails(CreateUser(db, data).db)
  {
    var i :| 0 <= i < |db.users| && db.users[i].email == data.email;
    var after := CreateUser(db, data).db;
    assert after.users[i].email == after.users[|db.users|].email;
  }

  /** A successful registration signs the new user in, and signing in later with the same
      email and password finds exactly that user. */
  lemma RegisterThenSignIn(s: Session, data: UserData)
    requires Register(s, data).ok
    ensures var r := Register(s, data).session;
            var u := data.WithId(s.db.lastIds.user + 1);
            && IsAuthenticated(r)
            && r.current == Some(u)
            && SignIn(SignOut(r), data.email, data.password) == AuthStep(r, true)
  {
    var r := Register(s, data).session;
    var u := r.current.value;
    assert r.db.users[|s.db.users|] == u;
    var found := FakeDb.Login(r.db, data.email, data.password);
    assert found.Some?;
    assert found.value == u;
  }

  /** Signing out and back in with the same credentials restores the session's user when
      that user is the only one with the email. */
  lemma SignOutSignIn(s: Session, u: User)
    requires s.current == Some(u) && u in s.db.users
    requires forall i :: 0 <= i < |s.db.users| && s.db.users[i].email == u.email ==> s.db.users[i] == u
    ensures SignIn(SignOut(s), u.email, u.password) == AuthStep(s, true)
  {
    var found := FakeDb.Login(s.db, u.email, u.password);
    var k :| 0 <= k < |s.db.users| && s.db.users[k] == u;
    assert found.Some?;
  }
}
