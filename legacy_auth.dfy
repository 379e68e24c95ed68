/** The older session service: an in-memory user table mirrored to
    browser storage, a login that keeps the password in the session, and a
    register that stores a reduced record and does not log in. */
module LegacySession {
  import opened Wrappers
  import opened Models
  import Session

  const LoginError := "Email ou mot de passe incorrect."
  const EmailInUse := "Cet email est déjà utilisé."

  /** The record `register` builds: only id, email, password and the two
      names are copied; every other property is absent. */
  function NewUser(userData: User, now: int): (r: User)
    ensures r.id == now && r.email == userData.email && r.password == userData.password
    ensures r.firstName == userData.firstName && r.lastName == userData.lastName
    ensures r.promo.None? && r.avatarUrl.None? && r.description.None? && r.links.None?
  {
    User(now, userData.email, userData.password, userData.firstName, userData.lastName, None, None, None, None)
  }

  /** A user registered with a password can then log in with it, and the
      login finds that new record. */
  lemma RegisteredCanLogin(db: seq<User>, userData: User, now: int, pass: string)
    requires !Session.EmailTaken(db, userData.email) && userData.password == Some(pass)
    ensures Session.FindLogin(db + [NewUser(userData, now)], userData.email, pass) == Some(|db|)
  {
    Session.RegisterThenLogin(db, NewUser(userData, now), pass);
  }

  class AuthService {
    /** `usersDB`, the in-memory table. */
    var usersDB: seq<User>
    /** The `users_db` storage key. */
    var storedDB: Option<seq<User>>
    /** The `user` storage key, the persisted session. */
    var storedUser: Option<User>
    /** Current value of `currentUserSubject`. */
    var currentUser: Option<User>

    /** `loadUsers()` when storage holds a table: the table is read from it.
        Without one the table starts empty (the fixture fetch that would
        fill it is not part of this model). */
    constructor (stored: Option<seq<User>>, session: Option<User>)
      ensures usersDB == stored.GetOr([]) && storedDB == stored
      ensures storedUser == session && currentUser.None?
    {
      usersDB := stored.GetOr([]);
      storedDB := stored;
      storedUser := session;
      currentUser := None;
    }

    /** `autoLogin()`: a persisted user becomes the current user; otherwise nothing changes. */
    method AutoLogin()
      modifies this`currentUser
      ensures old(storedUser).Some? ==> currentUser == storedUser
      ensures old(storedUser).None? ==> currentUser == old(currentUser)
    {
      if storedUser.Some? {
        currentUser := storedUser;
      }
    }

    /** `login(email, password)`: the first user with these exact
        credentials becomes the session and is persisted, password
        included; otherwise an error and no change. */
    method Login(email: string, password: string) returns (r: Result<User>)
      modifies this`currentUser, this`storedUser
      ensures r.Ok? <==> exists k :: 0 <= k < |old(usersDB)| && Session.Credentials(old(usersDB)[k], email, password)
      ensures r.Ok? ==> r.value == usersDB[Session.FindLogin(usersDB, email, password).value]
      ensures r.Ok? ==> r.value.password == Some(password)
      ensures r.Ok? ==> currentUser == Some(r.value) && storedUser == Some(r.value)
      ensures r.Err? ==> r.message == LoginError && unchanged(this)
    {
      var found := Session.FindLogin(usersDB, email, password);
      if found.Some? {
        var user := usersDB[found.value];
        assert Session.Credentials(usersDB[found.value], email, password);
        currentUser := Some(user);
        storedUser := Some(user);
        r := Ok(user);
      } else {
        r := Err(LoginError);
      }
    }

    /** `logout()`: the persisted session is removed and the current user cleared. */
    method Logout()
      modifies this`currentUser, this`storedUser
      ensures currentUser.None? && storedUser.None?
    {
      storedUser := None;
      currentUser := None;
    }

    /** `register(userData)` with `Date.now()` passed in as `now`: a taken
        email is an error and changes nothing; otherwise the reduced record
        is appended and the table saved. The session is not touched. */
    method Register(userData: User, now: int) returns (r: Result<User>)
      modifies this`usersDB, this`storedDB
      ensures r.Err? <==> Session.EmailTaken(old(usersDB), userData.email)
      ensures r.Err? ==> r.message == EmailInUse && unchanged(this)
      ensures r.Ok? ==> r.value == NewUser(userData, now)
      ensures r.Ok? ==> usersDB == old(usersDB) + [r.value] && storedDB == Some(usersDB)
    {
      if Session.EmailTaken(usersDB, userData.email) {
        return Err(EmailInUse);
      }
      var newUser := NewUser(userData, now);
      usersDB := usersDB + [newUser];
      storedDB := Some(usersDB);
      r := Ok(newUser);
    }
  }
}
