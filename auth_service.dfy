/** The session service: a registry of users kept in browser storage under
    one key, the active session kept under another, and the current-user
    value the components read. Storage is modelled by two optional fields
    (absent key = `None`). */
module Session {
  import opened Wrappers
  import opened Models

  /** `users.find(u => u.email === email && u.password === pass)`, as the
      index of the first match. A stored user without a password never
      matches, since `undefined === pass` is false for a string `pass`. */
  function FindLogin(users: seq<User>, email: string, pass: string): (r: Option<nat>)
    ensures r.None? <==> forall k :: 0 <= k < |users| ==> !Credentials(users[k], email, pass)
    ensures r.Some? ==> r.value < |users| && Credentials(users[r.value], email, pass)
    ensures r.Some? ==> forall k :: 0 <= k < r.value ==> !Credentials(users[k], email, pass)
  {
    if users == [] then None
    else if Credentials(users[0], email, pass) then Some(0)
    else
      match FindLogin(users[1..], email, pass)
      case None => None
      case Some(k) => Some(k + 1)
  }

  predicate Credentials(u: User, email: string, pass: string)
  {
    u.email == email && u.password == Some(pass)
  }

  /** `users.find(u => u.email === email)` is truthy. */
  predicate EmailTaken(users: seq<User>, email: string)
  {
    exists k :: 0 <= k < |users| && users[k].email == email
  }

  /** No two registered users share an email. */
  predicate UniqueEmails(users: seq<User>)
  {
    forall i, j :: 0 <= i < j < |users| ==> users[i].email != users[j].email
  }

  /** `users.findIndex(u => u.id === id)`, as an optional index. */
  function FindUser(users: seq<User>, id: int): (r: Option<nat>)
    ensures r.None? <==> forall k :: 0 <= k < |users| ==> users[k].id != id
    ensures r.Some? ==> r.value < |users| && users[r.value].id == id
    ensures r.Some? ==> forall k :: 0 <= k < r.value ==> users[k].id != id
  {
    if users == [] then None
    else if users[0].id == id then Some(0)
    else
      match FindUser(users[1..], id)
      case None => None
      case Some(k) => Some(k + 1)
  }

  /** `const { password, ...safeUser } = user`: the same user without a password. */
  function Redact(u: User): (r: User)
    ensures r.password.None?
    ensures r.(password := u.password) == u
  {
    u.(password := None)
  }

  /** `{ ...existing, ...update, password: existing.password, email: existing.email }`.
      A property the update carries replaces the stored one; one it lacks
      (`None`) keeps the stored value; password and email always stay. */
  function Merge(existing: User, update: User): (r: User)
    ensures r.password == existing.password && r.email == existing.email
    ensures r.id == update.id && r.firstName == update.firstName && r.lastName == update.lastName
    ensures r.promo == (if update.promo.Some? then update.promo else existing.promo)
    ensures r.avatarUrl == (if update.avatarUrl.Some? then update.avatarUrl else existing.avatarUrl)
    ensures r.description == (if update.description.Some? then update.description else existing.description)
    ensures r.links == (if update.links.Some? then update.links else existing.links)
  {
    User(
      update.id,
      existing.email,
      existing.password,
      update.firstName,
      update.lastName,
      if update.promo.Some? then update.promo else existing.promo,
      if update.avatarUrl.Some? then update.avatarUrl else existing.avatarUrl,
      if update.description.Some? then update.description else existing.description,
      if update.links.Some? then update.links else existing.links)
  }

  /** A newly registered user with an unused email can log in with its own
      password, and the login finds that user (the last entry). */
  lemma {:induction false} RegisterThenLogin(users: seq<User>, u: User, pass: string)
    requires !EmailTaken(users, u.email) && u.password == Some(pass)
    ensures FindLogin(users + [u], u.email, pass) == Some(|users|)
  {
    if users != [] {
      assert users[0].email != u.email;
      assert !EmailTaken(users[1..], u.email) by {
        forall k | 0 <= k < |users[1..]| ensures users[1..][k].email != u.email {
          assert users[1..][k] == users[k + 1];
        }
      }
      RegisterThenLogin(users[1..], u, pass);
      assert (users + [u])[1..] == users[1..] + [u];
    }
  }

  /** Registration keeps emails unique. */
  lemma RegisterKeepsEmailsUnique(users: seq<User>, u: User)
    requires UniqueEmails(users) && !EmailTaken(users, u.email)
    ensures UniqueEmails(users + [u])
  {
    var r := users + [u];
    forall i, j | 0 <= i < j < |r| ensures r[i].email != r[j].email {
      if j == |users| {
        assert r[i] == users[i];
      }
    }
  }

  /** Updating a profile never changes who can log in: the same credentials
      match before and after, on the same entries. */
  lemma UpdateKeepsCredentials(users: seq<User>, i: nat, update: User, email: string, pass: string)
    requires i < |users|
    ensures var after := users[i := Merge(users[i], update)];
      forall k :: 0 <= k < |users| ==> (Credentials(after[k], email, pass) <==> Credentials(users[k], email, pass))
    ensures FindLogin(users[i := Merge(users[i], update)], email, pass) == FindLogin(users, email, pass)
  {
    var after := users[i := Merge(users[i], update)];
    SameCredentialsSameLogin(users, after, email, pass);
  }

  lemma {:induction false} SameCredentialsSameLogin(a: seq<User>, b: seq<User>, email: string, pass: string)
    requires |a| == |b|
    requires forall k :: 0 <= k < |a| ==> a[k].email == b[k].email && a[k].password == b[k].password
    ensures FindLogin(a, email, pass) == FindLogin(b, email, pass)
  {
    if a != [] {
      SameCredentialsSameLogin(a[1..], b[1..], email, pass);
    }
  }

  /** Updating a profile keeps emails unique. */
  lemma UpdateKeepsEmailsUnique(users: seq<User>, i: nat, update: User)
    requires i < |users| && UniqueEmails(users)
    ensures UniqueEmails(users[i := Merge(users[i], update)])
  {
  }

  class AuthService {
    /** The registry key of browser storage; `None` when the key is absent. */
    var storedUsers: Option<seq<User>>
    /** The session key of browser storage. */
    var storedSession: Option<User>
    /** Current value of `currentUserSubject`. */
    var currentUser: Option<User>

    /** Every session this service writes is password-free and mirrored in storage. */
    ghost predicate SessionSafe()
      reads this
    {
      currentUser.Some? ==> currentUser.value.password.None? && storedSession == currentUser
    }

    /** `getUsersFromStorage()`: an absent key reads as an empty registry. */
    function Users(): (r: seq<User>)
      reads this
      ensures storedUsers.None? ==> r == []
      ensures storedUsers.Some? ==> r == storedUsers.value
    {
      storedUsers.GetOr([])
    }

    /** The constructor with the storage contents it finds; the fixture load
        of `initUsers` is not part of this model. The session is restored. */
    constructor (users: Option<seq<User>>, session: Option<User>)
      ensures storedUsers == users && storedSession == session
      ensures currentUser == session
    {
      storedUsers := users;
      storedSession := session;
      currentUser := None;
      new;
      RestoreSession();
    }

    /** `restoreSession()`: a stored session becomes the current user. */
    method RestoreSession()
      modifies this`currentUser
      ensures old(storedSession).Some? ==> currentUser == storedSession
      ensures old(storedSession).None? ==> currentUser == old(currentUser)
    {
      if storedSession.Some? {
        currentUser := storedSession;
      }
    }

    /** `setCurrentUser(user)`: store and publish the user without its password. */
    method SetCurrentUser(user: User)
      modifies this`storedSession, this`currentUser
      ensures currentUser == Some(Redact(user)) && storedSession == currentUser
      ensures SessionSafe()
    {
      var safe := Redact(user);
      storedSession := Some(safe);
      currentUser := Some(safe);
    }

    /** `login(email, pass)`: succeeds iff some registered user has exactly
        these credentials; the first one becomes the session, password
        removed. A failure changes nothing. */
    method Login(email: string, pass: string) returns (ok: bool)
      modifies this`storedSession, this`currentUser
      ensures ok <==> exists k :: 0 <= k < |old(Users())| && Credentials(old(Users())[k], email, pass)
      ensures ok ==> currentUser == Some(Redact(Users()[FindLogin(Users(), email, pass).value]))
      ensures storedUsers == old(storedUsers)
      ensures ok ==> SessionSafe()
      ensures !ok ==> currentUser == old(currentUser) && storedSession == old(storedSession)
      ensures old(storedUsers).None? ==> !ok
    {
      var users := Users();
      var found := FindLogin(users, email, pass);
      if found.Some? {
        assert Credentials(users[found.value], email, pass);
        SetCurrentUser(users[found.value]);
        ok := true;
      } else {
        ok := false;
      }
    }

    /** `register(newUser)` with `Date.now()` passed in as `now`: a taken
        email is refused and nothing is written; otherwise the user, with id
        `now`, is appended to the registry (an absent registry starts
        empty) and becomes the session, password removed. */
    method Register(newUser: User, now: int) returns (ok: bool)
      modifies this
      ensures ok <==> !EmailTaken(old(Users()), newUser.email)
      ensures !ok ==> unchanged(this)
      ensures ok ==> storedUsers == Some(old(Users()) + [newUser.(id := now)])
      ensures ok ==> currentUser == Some(Redact(newUser.(id := now))) && SessionSafe()
    {
      var users := Users();
      if EmailTaken(users, newUser.email) {
        return false;
      }
      var user := newUser.(id := now);
      users := users + [user];
      storedUsers := Some(users);
      SetCurrentUser(user);
      ok := true;
    }

    /** `logout()`: the stored session is deleted and the current user cleared. */
    method Logout()
      modifies this`storedSession, this`currentUser
      ensures storedSession.None? && currentUser.None?
      ensures SessionSafe()
    {
      storedSession := None;
      currentUser := None;
    }

    /** `updateUser(updated)`: an unknown id changes nothing; otherwise only
        that entry is replaced, by the merge that keeps the stored password
        and email, and the merged user becomes the session. */
    method UpdateUser(updated: User)
      modifies this
      ensures FindUser(old(Users()), updated.id).None? ==> unchanged(this)
      ensures FindUser(old(Users()), updated.id).Some? ==>
        var i := FindUser(old(Users()), updated.id).value;
        && storedUsers == Some(old(Users())[i := Merge(old(Users())[i], updated)])
        && currentUser == Some(Redact(Merge(old(Users())[i], updated)))
        && SessionSafe()
    {
      var users := Users();
      var index := FindUser(users, updated.id);
      if index.Some? {
        var finalUser := Merge(users[index.value], updated);
        users := users[index.value := finalUser];
        storedUsers := Some(users);
        SetCurrentUser(finalUser);
      }
    }
  }
}
