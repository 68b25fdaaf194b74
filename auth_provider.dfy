/**
 * The mock authentication of the router-based screens (`src/hooks/useAuth.jsx`): users are
 * the records of the mock JSON server, a login is a search for a record with the same email
 * and password, the signed-in user is kept (without the password) in the provider and in
 * local storage, and a registration appends a record with the role "user".
 *
 * The user list a request returns is a parameter (`None` when the request or its JSON
 * fails); whether the server accepted the new record is the parameter `created`. Local
 * storage is the field `saved`.
 */
module Auth {
  import opened JsLib

  /** A user record as the server holds it. */
  datatype UserRecord = UserRecord(id: JsValue, name: string, email: string, password: string, role: string)

  /** The signed-in user: the record with its password removed. */
  datatype PublicUser = PublicUser(id: JsValue, name: string, email: string, role: string)

  /** The body `register` posts. */
  datatype NewUser = NewUser(name: string, email: string, password: string, role: string)

  datatype AuthResult = Success(user: Option<PublicUser>) | Failure(error: string)

  function WithoutPassword(u: UserRecord): (p: PublicUser)
    ensures p.id == u.id && p.name == u.name && p.email == u.email && p.role == u.role
  {
    PublicUser(u.id, u.name, u.email, u.role)
  }

  function Credentials(email: string, password: string): UserRecord -> bool {
    (u: UserRecord) => u.email == email && u.password == password
  }

  function SameEmail(email: string): UserRecord -> bool {
    (u: UserRecord) => u.email == email
  }

  /**
   * `users.find(u => u.email === email && u.password === password)`: a match exactly when some
   * record has both, and then the first such record.
   */
  lemma FindCredentialsSpec(users: seq<UserRecord>, email: string, password: string)
    ensures Find(users, Credentials(email, password)).Some? <==>
      exists i :: 0 <= i < |users| && users[i].email == email && users[i].password == password
    ensures Find(users, Credentials(email, password)).Some? ==>
      exists i :: (&& 0 <= i < |users| && Find(users, Credentials(email, password)).value == users[i]
                   && users[i].email == email && users[i].password == password
                   && forall j :: 0 <= j < i ==> !(users[j].email == email && users[j].password == password))
  {
    var p := Credentials(email, password);
    if Find(users, p).Some? {
      var i :| 0 <= i < |users| && p(users[i]);
      FindFirst(users, p, i);
      var j :| 0 <= j <= i && Find(users, p) == Some(users[j]) && forall k :: 0 <= k < j ==> !p(users[k]);
      assert forall k :: 0 <= k < j ==> !(users[k].email == email && users[k].password == password) by {
        forall k | 0 <= k < j ensures !(users[k].email == email && users[k].password == password) {
          assert !p(users[k]);
        }
      }
    }
  }

  class Provider {
    var user: Option<PublicUser>
    var saved: Option<PublicUser>
    var loading: bool

    /** A fresh provider: nobody signed in yet, still loading, with whatever local storage holds. */
    constructor (stored: Option<PublicUser>)
      ensures user.None? && saved == stored && loading
    {
      user := None;
      saved := stored;
      loading := true;
    }

    /** The mount effect: a saved user is signed in again; loading ends either way. */
    method Restore()
      modifies this
      ensures user == (if old(saved).Some? then old(saved) else old(user))
      ensures saved == old(saved) && !loading
    {
      if saved.Some? {
        user := saved;
      }
      loading := false;
    }

    /**
     * `login(email, password)`: with the user list, the first record with both that email and
     * that password is signed in, without its password, and saved; with no such record the
     * result is "Invalid credentials"; when the list cannot be read it is "Login failed". A
     * failed login changes nothing.
     */
    method Login(users: Option<seq<UserRecord>>, email: string, password: string) returns (result: AuthResult)
      modifies this
      ensures users.None? ==> result == Failure("Login failed")
      ensures users.Some? && Find(users.value, Credentials(email, password)).None? ==> result == Failure("Invalid credentials")
      ensures result.Failure? ==> user == old(user) && saved == old(saved)
      ensures users.Some? && Find(users.value, Credentials(email, password)).Some? ==>
        var signedIn := WithoutPassword(Find(users.value, Credentials(email, password)).value);
        result == Success(Some(signedIn)) && user == Some(signedIn) && saved == Some(signedIn)
      ensures loading == old(loading)
    {
      if users.None? {
        return Failure("Login failed");
      }
      var found := Find(users.value, Credentials(email, password));
      if found.Some? {
        var signedIn := WithoutPassword(found.value);
        user := Some(signedIn);
        saved := Some(signedIn);
        return Success(Some(signedIn));
      }
      return Failure("Invalid credentials");
    }

    /**
     * `register(name, email, password)`: it signs nobody in. With the user list, a taken email
     * is refused with "User already exists" and nothing is posted; otherwise a record with the
     * role "user" is posted, and the result is success when the server accepts it. When the list
     * cannot be read nothing is posted and the result is "Registration failed".
     */
    method Register(users: Option<seq<UserRecord>>, name: string, email: string, password: string, created: bool)
      returns (result: AuthResult, posted: Option<NewUser>)
      ensures users.None? ==> result == Failure("Registration failed") && posted.None?
      ensures users.Some? && Find(users.value, SameEmail(email)).Some? ==> result == Failure("User already exists") && posted.None?
      ensures users.Some? && Find(users.value, SameEmail(email)).None? ==>
        && posted == Some(NewUser(name, email, password, "user"))
        && result == (if created then Success(None) else Failure("Registration failed"))
    {
      if users.None? {
        return Failure("Registration failed"), None;
      }
      if Find(users.value, SameEmail(email)).Some? {
        return Failure("User already exists"), None;
      }
      posted := Some(NewUser(name, email, password, "user"));
      result := if created then Success(None) else Failure("Registration failed");
    }

    /** `logout`: nobody is signed in and nothing is saved. */
    method Logout()
      modifies this
      ensures user.None? && saved.None? && loading == old(loading)
    {
      user := None;
      saved := None;
    }
  }

  /**
   * After an accepted registration, once the server holds the new record after the others, a
   * login with the same email and password signs in exactly the registered user, with the role
   * "user": no earlier record can match, since none has that email.
   */
  lemma {:induction false} RegisterThenLogin(users: seq<UserRecord>, id: JsValue, name: string, email: string, password: string)
    requires Find(users, SameEmail(email)).None?
    ensures var stored := users + [UserRecord(id, name, email, password, "user")];
      && Find(stored, Credentials(email, password)).Some?
      && WithoutPassword(Find(stored, Credentials(email, password)).value) == PublicUser(id, name, email, "user")
  {
    var record := UserRecord(id, name, email, password, "user");
    var stored := users + [record];
    var p := Credentials(email, password);
    assert forall i :: 0 <= i < |users| ==> users[i].email != email by {
      forall i | 0 <= i < |users| ensures users[i].email != email {
        assert !SameEmail(email)(users[i]);
      }
    }
    assert stored[|users|] == record && p(record);
    forall k | 0 <= k < |users| ensures !p(stored[k]) {
      assert stored[k] == users[k];
    }
    var v := Find(stored, p).value;
    var k :| 0 <= k < |stored| && stored[k] == v;
    assert k == |users|;
  }
}
